/** Switching the snapshot chain to a longer fork: find the fork point, roll the disk back to
    it, re-root. */
module ForkSwitch {
  import opened Blocks
  import opened ForkTree
  import opened Rerooting
  import opened RerootingExact
  import opened PoolSteps
  import opened PoolMachine
  import opened PoolRuns

  // ---------------------------------------------------------------- the fork point

  lemma {:induction false} NothingBelowZero(p: Pool, id: Id, h: int)
    requires TreeOk(p) && id in p.chains && h < 0
    ensures At(p, id, h).None?
    decreases Rank(p, Chain(id))
  {
    ParentIsBelow(p, id);
    OwnOrParent(p, id, h);
    assert ChainOk(p, id);
    if p.chains[id].refer.Chain? { NothingBelowZero(p, p.chains[id].refer.id, h); }
  }

  /** The scan of `getForkPoint` from height `i` down: the first height at which the two chains
      hold the same block, or None where one of them has no block at all. */
  function Scan(p: Pool, longest: Id, current: Id, i: int): (f: Option<int>)
    requires TreeOk(p) && longest in p.chains && current in p.chains
    ensures f.Some? ==> 0 <= f.value <= i
    decreases Max(i + 1, 0)
  {
    var a, b := At(p, longest, i), At(p, current, i);
    if a.None? || b.None? then None
    else
      assert i >= 0 by { if i < 0 { NothingBelowZero(p, longest, i); } }
      if a.value.hash == b.value.hash then Some(i) else Scan(p, longest, current, i - 1)
  }

  /** One turn of the scan. */
  lemma ScanTurns(p: Pool, a: Id, b: Id, i: int)
    requires TreeOk(p) && a in p.chains && b in p.chains
    ensures At(p, a, i).Some? && At(p, b, i).Some? ==>
              i >= 0 && Scan(p, a, b, i) == if At(p, a, i).value.hash == At(p, b, i).value.hash then Some(i) else Scan(p, a, b, i - 1)
    ensures At(p, a, i).None? || At(p, b, i).None? ==> Scan(p, a, b, i).None?
  {
    if i < 0 { NothingBelowZero(p, a, i); }
  }

  function ForkPoint(p: Pool, longest: Id, current: Id): Option<int>
    requires TreeOk(p) && longest in p.chains && current in p.chains
  {
    Scan(p, longest, current, p.chains[current].head)
  }

  /** One look of the scan, for sound chains: comparing hashes compares blocks. */
  lemma ScanLooks(p: Pool, a: Id, b: Id, i: int)
    requires TreeOk(p) && a in p.chains && b in p.chains && Sound(p, a) && Sound(p, b)
    requires HashIdentifies(Held(p)) && i <= p.chains[a].head && i <= p.chains[b].head
    ensures i >= 0 ==> Scan(p, a, b, i) == if At(p, a, i) == At(p, b, i) then Some(i) else Scan(p, a, b, i - 1)
    ensures i < 0 ==> Scan(p, a, b, i).None?
  {
    if i >= 0 {
      LookupIsHeld(p, Chain(a), i);
      LookupIsHeld(p, Chain(b), i);
    } else {
      NothingBelowZero(p, a, i);
    }
  }

  lemma {:induction false} ScanFinds(p: Pool, a: Id, b: Id, i: int)
    requires TreeOk(p) && a in p.chains && b in p.chains && Sound(p, a) && Sound(p, b)
    requires HashIdentifies(Held(p)) && -1 <= i <= p.chains[a].head && i <= p.chains[b].head
    ensures var f := Scan(p, a, b, i);
            && (f.Some? ==> At(p, a, f.value) == At(p, b, f.value))
            && (forall h | (if f.Some? then f.value + 1 else 0) <= h <= i :: At(p, a, h) != At(p, b, h))
    decreases i + 1
  {
    ScanLooks(p, a, b, i);
    if i >= 0 && At(p, a, i) != At(p, b, i) { ScanFinds(p, a, b, i - 1); }
  }

  /** The scan ends at the greatest common block: the chains agree at every height up to it and
      at none above, and it fails exactly when they share no block. */
  lemma ForkPointIsGreatestCommon(p: Pool, a: Id, b: Id)
    requires TreeOk(p) && a in p.chains && b in p.chains && Sound(p, a) && Sound(p, b)
    requires HashIdentifies(Held(p)) && p.chains[b].head <= p.chains[a].head
    ensures var f, top := ForkPoint(p, a, b), p.chains[b].head;
            && (f.Some? <==> exists h :: 0 <= h <= top && At(p, a, h) == At(p, b, h))
            && (f.Some? ==> forall h | 0 <= h <= top :: At(p, a, h) == At(p, b, h) <==> h <= f.value)
  {
    var f, top := ForkPoint(p, a, b), p.chains[b].head;
    assert ChainOk(p, b);
    ScanFinds(p, a, b, top);
    if f.Some? {
      forall h | 0 <= h <= f.value
        ensures At(p, a, h) == At(p, b, h)
      {
        AgreeBelow(p, a, b, f.value, h);
      }
    }
  }

  // ---------------------------------------------------------------- the whole switch

  datatype Outcome =
    | Switched(pool: Pool)
    | NoForkPoint
    | RollbackFailed(pool: Pool)   // the disk is rolled back, but current's tail hash does not name its head
    | Refused(pool: Pool)          // the target does not contain the disk's head
    | Crashed                      // nil is dereferenced

  /** Nothing lies above the fork point on the target; `snapshotFork` asserts a type of it. */
  predicate KeyMissing(p: Pool, longest: Id)
    requires Inv(p) && longest in p.chains
  {
    var f := ForkPoint(p, longest, p.current);
    f.Some? && At(p, longest, f.value + 1).None?
  }

  /** `snapshotFork`, the account side apart. */
  function SnapshotFork(p: Pool, longest: Id, once: bool): Outcome
    requires Inv(p) && longest in p.chains
  {
    var f := ForkPoint(p, longest, p.current);
    if f.None? then NoForkPoint
    else if KeyMissing(p, longest) then Crashed
    else
      PopToRoots(p, f.value, longest);
      var q := PopTo(p, f.value);
      if q.chains[q.current].tailHash != DiskHead(q.disk).hash then RollbackFailed(q)
      else match Switch(q, longest, once)
           case None => Crashed
           case Some(z) => if z.current == longest then Switched(z) else Refused(z)
  }

  lemma {:induction false} PopToOthers(p: Pool, n: int, id: Id)
    requires p.current in p.chains && id in p.chains && -1 <= n
    ensures id != p.current ==> PopTo(p, n).chains[id] == p.chains[id]
    ensures PopTo(p, n).chains[id].refer == p.chains[id].refer
    decreases |p.disk|
  {
    if |p.disk| - 1 > n { PopToOthers(Pop(p), n, id); }
  }

  /** Current reads the disk everywhere below its tail. */
  lemma CurrentReadsDisk(p: Pool, h: int)
    requires Inv(p) && 0 <= h < |p.disk|
    ensures At(p, p.current, h) == Some(p.disk[h])
  {
    assert ChainOk(p, p.current);
    OwnOrParent(p, p.current, h);
  }

  /** A rollback to `n` leaves alone what a chain on current reads, what any chain reads up to
      `n`, and every chain that reaches the disk at or below `n`. */
  ghost predicate Spared(p: Pool, n: int, id: Id, h: int)
    requires Acyclic(p) && id in p.chains && p.current in p.chains
  {
    Root(p, id) == p.current || h <= n || (LowTail(p, id) <= n && h <= p.chains[id].head)
  }

  lemma PopSpares(p: Pool, n: int, id: Id, h: int)
    requires Inv(p) && n < |p.disk| - 1 && -1 <= n && id in p.chains && Spared(p, n, id, h)
    ensures Inv(Pop(p)) && Spared(Pop(p), n, id, h) && At(Pop(p), id, h) == At(p, id, h)
  {
    var q := Pop(p);
    CurrentIsSound(p);
    PopKeepsInv(p);
    PopIsRegrown(p);
    SameRefsRoot(p, q, id);
    if Root(p, id) == p.current {
      RegrownKeepsLive(q, p, id, h);
    } else {
      RegrownElsewhere(q, p, id, h);
      if h == |q.disk| { LookupSplits(q, id, h); }
    }
  }

  lemma {:induction false} PopToSpares(p: Pool, n: int, id: Id, h: int)
    requires Inv(p) && -1 <= n && id in p.chains && Spared(p, n, id, h)
    ensures Inv(PopTo(p, n)) && At(PopTo(p, n), id, h) == At(p, id, h)
    decreases |p.disk|
  {
    if n < |p.disk| - 1 {
      PopSpares(p, n, id, h);
      PopToSpares(Pop(p), n, id, h);
    }
  }

  lemma {:induction false} CutDisk(p: Pool, n: int)
    requires p.current in p.chains && -1 <= n
    ensures |PopTo(p, n).disk| - 1 == Min(|p.disk| - 1, n)
    ensures PopTo(p, n).disk == p.disk[..|PopTo(p, n).disk|]
    decreases |p.disk|
  {
    if n < |p.disk| - 1 { CutDisk(Pop(p), n); }
  }

  lemma BelowForkPoint(p: Pool, a: Id, b: Id, h: int)
    requires TreeOk(p) && a in p.chains && b in p.chains && Sound(p, a) && Sound(p, b)
    requires HashIdentifies(Held(p)) && p.chains[b].head <= p.chains[a].head
    requires ForkPoint(p, a, b).Some? && 0 <= h <= ForkPoint(p, a, b).value
    ensures h <= p.chains[b].head && At(p, a, h) == At(p, b, h)
  {
    ForkPointIsGreatestCommon(p, a, b);
  }

  lemma AboveForkPoint(p: Pool, a: Id, b: Id, h: int)
    requires TreeOk(p) && a in p.chains && b in p.chains && Sound(p, a) && Sound(p, b)
    requires HashIdentifies(Held(p)) && p.chains[b].head <= p.chains[a].head
    requires ForkPoint(p, a, b).Some? && ForkPoint(p, a, b).value < h <= p.chains[b].head
    ensures At(p, a, h) != At(p, b, h)
  {
    ForkPointIsGreatestCommon(p, a, b);
  }

  // ---------------------------------------------------------------- the pool before the rollback tells

  /** The rollback's own check. A cut below the disk's head names the new head by the block it
      puts back; with nothing to cut, current's tail hash has to name the head already. */
  predicate Passes(p: Pool, f: int)
    requires p.current in p.chains
  {
    f < |p.disk| - 1 || p.chains[p.current].tailHash == DiskHead(p.disk).hash
  }

  lemma {:induction false} CutNamesHead(p: Pool, n: int)
    requires Inv(p) && 0 <= n < |p.disk| - 1
    ensures PopTo(p, n).chains[p.current].tailHash == p.disk[n].hash
    decreases |p.disk|
  {
    PopKeepsInv(p);
    assert DiskLinkAt(p.disk, n + 1);
    if n < |p.disk| - 2 { CutNamesHead(Pop(p), n); }
  }

  lemma PassesExactly(p: Pool, f: int)
    requires Inv(p) && 0 <= f && |p.disk| > 0
    ensures PopTo(p, f).chains[p.current].tailHash == DiskHead(PopTo(p, f).disk).hash <==> Passes(p, f)
  {
    CutDisk(p, f);
    if f < |p.disk| - 1 { CutNamesHead(p, f); }
  }

  lemma {:induction false} ScanHolds(p: Pool, a: Id, b: Id, i: int)
    requires TreeOk(p) && a in p.chains && b in p.chains && Scan(p, a, b, i).Some?
    ensures var f := Scan(p, a, b, i).value;
            At(p, a, f).Some? && At(p, b, f).Some? && At(p, a, f).value.hash == At(p, b, f).value.hash
    decreases Max(i + 1, 0)
  {
    ScanTurns(p, a, b, i);
    if At(p, a, i).value.hash != At(p, b, i).value.hash { ScanHolds(p, a, b, i - 1); }
  }

  /** The target holds the head the cut leaves, unless nothing is cut and it lacks the head. */
  lemma HoldsCutHead(p: Pool, longest: Id, f: int)
    requires Inv(p) && |p.disk| > 0 && longest in p.chains && ForkPoint(p, longest, p.current) == Some(f)
    ensures Inv(PopTo(p, f))
    ensures HoldsHead(PopTo(p, f), longest) <==> f <= |p.disk| - 1 || HoldsHead(p, longest)
  {
    CutDisk(p, f);
    if f <= |p.disk| - 1 {
      ScanHolds(p, longest, p.current, p.chains[p.current].head);
      CurrentReadsDisk(p, f);
      PopToSpares(p, f, longest, f);
    }
  }

  /** A complete target always does. */
  lemma CompleteTargetHoldsHead(p: Pool, longest: Id, f: int)
    requires Inv(p) && |p.disk| > 0 && longest in p.chains && Sound(p, longest) && HashIdentifies(Held(p))
    requires p.chains[p.current].head <= p.chains[longest].head
    requires ForkPoint(p, longest, p.current) == Some(f) && |p.disk| - 1 <= f
    ensures HoldsHead(p, longest)
  {
    CurrentIsSound(p);
    BelowForkPoint(p, longest, p.current, |p.disk| - 1);
    CurrentReadsDisk(p, |p.disk| - 1);
  }

  /** The height the disk ends at after the rollback. */
  function CutHeight(p: Pool, f: int): int {
    Min(|p.disk| - 1, f)
  }

  function WithTail(p: Pool, m: int): Pool
    requires p.current in p.chains
  {
    p.(chains := p.chains[p.current := p.chains[p.current].(tail := m)])
  }

  /** The hops fit once current's tail is lowered to `m`. */
  ghost predicate CutFits(p: Pool, to: Id, m: int, once: bool)
    requires Acyclic(p) && p.current in p.chains && to in p.chains
  {
    SameRefsAcyclic(p, WithTail(p, m));
    HopsFit(WithTail(p, m), to, once)
  }

  lemma {:induction false} SameRefsPath(p: Pool, q: Pool, id: Id)
    requires Acyclic(p) && Acyclic(q) && SameRefs(p, q) && id in p.chains
    ensures Path(q, id) == Path(p, id)
    decreases Rank(p, Chain(id))
  {
    ParentIsBelow(p, id);
    if p.chains[id].refer.Chain? { SameRefsPath(p, q, p.chains[id].refer.id); }
  }

  lemma HopsAreTails(p: Pool, q: Pool, to: Id, once: bool)
    requires Acyclic(p) && Acyclic(q) && SameRefs(p, q) && to in p.chains && HopsFit(p, to, once)
    requires forall i | i in p.chains :: q.chains[i].tail == p.chains[i].tail
    ensures HopsFit(q, to, once)
  {
    SameRefsPath(p, q, to);
    var path := Path(p, to);
    forall k | 0 <= k < |path| - 1
      ensures FitsAt(q, path, k, once)
    {
      assert FitsAt(p, path, k, once);
    }
  }

  lemma FitsAfterCut(p: Pool, to: Id, f: int, once: bool)
    requires Inv(p) && to in p.chains && 0 <= f
    ensures Inv(PopTo(p, f)) && (HopsFit(PopTo(p, f), to, once) <==> CutFits(p, to, CutHeight(p, f), once))
  {
    var q, w := PopTo(p, f), WithTail(p, CutHeight(p, f));
    SameRefsAcyclic(p, w);
    PopToRoots(p, f, to);
    forall i | i in p.chains
      ensures q.chains[i].refer == w.chains[i].refer && q.chains[i].tail == w.chains[i].tail
    {
      PopToOthers(p, f, i);
    }
    if HopsFit(w, to, once) { HopsAreTails(w, q, to, once); }
    if HopsFit(q, to, once) { HopsAreTails(q, w, to, once); }
  }

  /** The target rests on current, or its root stands complete where the disk will end. */
  ghost predicate RootedAfterCut(p: Pool, to: Id, m: int)
    requires Acyclic(p) && to in p.chains
  {
    Root(p, to) == p.current || (p.chains[Root(p, to)].tail == m && TreeSound(p, Root(p, to)))
  }

  lemma CutKeepsComplete(p: Pool, n: int, id: Id)
    requires Inv(p) && -1 <= n && id in p.chains && Root(p, id) != p.current && LowTail(p, id) <= n
    ensures Inv(PopTo(p, n)) && (Sound(PopTo(p, n), id) <==> Sound(p, id))
  {
    var q := PopTo(p, n);
    PopToRoots(p, n, id);
    forall h | h <= p.chains[id].head
      ensures At(q, id, h) == At(p, id, h)
    {
      PopToSpares(p, n, id, h);
    }
    if Sound(p, id) { SameLogicalKeepsSound(p, q, id); }
    if Sound(q, id) { SameLogicalKeepsSound(q, p, id); }
  }

  lemma CutKeepsTreeSound(p: Pool, n: int, root: Id)
    requires Inv(p) && -1 <= n && root in p.chains && root != p.current && p.chains[root].tail <= n
    ensures Inv(PopTo(p, n)) && (TreeSound(PopTo(p, n), root) <==> TreeSound(p, root))
  {
    var q := PopTo(p, n);
    PopToRoots(p, n, root);
    forall id | id in p.chains
      ensures Root(q, id) == Root(p, id)
      ensures Root(p, id) == root ==> (Sound(q, id) <==> Sound(p, id))
    {
      PopToRoots(p, n, id);
      if Root(p, id) == root {
        LowTailIsLow(p, id);
        CutKeepsComplete(p, n, id);
      }
    }
    if TreeSound(q, root) {
      forall id | id in p.chains && Root(p, id) == root
        ensures Sound(p, id)
      {
        assert Root(q, id) == root && Sound(q, id);
      }
    }
  }

  lemma RootedExactly(p: Pool, to: Id, f: int)
    requires Inv(p) && to in p.chains && 0 <= f
    ensures Inv(PopTo(p, f)) && (RootedAtHead(PopTo(p, f), to) <==> RootedAfterCut(p, to, CutHeight(p, f)))
  {
    var root := Root(p, to);
    PopToRoots(p, f, to);
    if root == p.current {
      CurrentTreeIsRooted(PopTo(p, f), to);
    } else {
      PopToOthers(p, f, root);
      if p.chains[root].tail == CutHeight(p, f) { CutKeepsTreeSound(p, f, root); }
    }
  }

  // ---------------------------------------------------------------- the whole switch

  /** What a completed switch leaves. */
  ghost predicate AfterSwitch(p: Pool, z: Pool, longest: Id, f: int)
    requires Inv(p) && longest in p.chains
  {
    var m := CutHeight(p, f);
    && Acyclic(z) && z.current == longest && |z.disk| - 1 == m && z.disk == p.disk[..|z.disk|]
    && (forall id | id in p.chains && Sound(p, id) && (Root(p, id) == p.current || LowTail(p, id) <= f) ::
          Continues(p, z, id))
    && p.current in z.chains
    && (forall h | m < h < |p.disk| :: At(z, p.current, h) == Some(p.disk[h]))
    && (Inv(z) <==> RootedAfterCut(p, longest, m))
    && (Inv(z) ==> forall h | 0 <= h <= m :: At(z, longest, h) == Some(z.disk[h]))
  }

  /** The whole switch over hops that fit once the disk is cut. It dereferences nil exactly when
      the target has nothing above the fork point. Otherwise it fails exactly when the
      rollback's own check does, is refused exactly when nothing is cut and the target lacks the
      disk's head, and otherwise makes the target current: the disk is cut to the fork point and
      no further, every complete chain that rests on current or reaches the disk below the cut
      goes on, the blocks taken off the disk are still held by the chain that lost, and the
      invariant holds exactly when the target's root stands complete where the disk now ends. */
  lemma WholeSwitch(p: Pool, longest: Id, f: int, once: bool)
    requires Inv(p) && |p.disk| > 0  // the snapshot disk always has its genesis block
    requires longest in p.chains && longest != p.current && ForkPoint(p, longest, p.current) == Some(f)
    requires CutFits(p, longest, CutHeight(p, f), once)
    ensures var out := SnapshotFork(p, longest, once);
            if KeyMissing(p, longest) then out == Crashed
            else if !Passes(p, f) then out == RollbackFailed(PopTo(p, f))
            else if |p.disk| - 1 < f && !HoldsHead(p, longest) then out == Refused(p)
            else out.Switched? && AfterSwitch(p, out.pool, longest, f)
  {
    var q := PopTo(p, f);
    PassesExactly(p, f);
    HoldsCutHead(p, longest, f);
    FitsAfterCut(p, longest, f, once);
    TreeIsShapely(q);
    SwitchKeepsMeaning(q, longest, once);
    if HoldsHead(q, longest) {
      SwitchedPool(p, longest, f, once);
    }
  }

  lemma SwitchedPool(p: Pool, longest: Id, f: int, once: bool)
    requires Inv(p) && |p.disk| > 0 && longest in p.chains && 0 <= f
    requires Inv(PopTo(p, f)) && HoldsHead(PopTo(p, f), longest) && HopsFit(PopTo(p, f), longest, once)
    ensures Switch(PopTo(p, f), longest, once).Some?
    ensures AfterSwitch(p, Switch(PopTo(p, f), longest, once).value, longest, f)
  {
    var q := PopTo(p, f);
    CutDisk(p, f);
    TreeIsShapely(q);
    SwitchKeepsMeaning(q, longest, once);
    SwitchKeepsInvExactly(q, longest, once);
    RootedExactly(p, longest, f);
    var z := Switch(q, longest, once).value;
    forall id | id in p.chains && Sound(p, id) && (Root(p, id) == p.current || LowTail(p, id) <= f)
      ensures Continues(p, z, id)
    {
      PopToContinues(p, f, id);
      SwitchContinues(q, longest, once, id);
      ContinuesTrans(p, q, z, id);
    }
    CurrentIsSound(p);
    forall h | CutHeight(p, f) < h < |p.disk|
      ensures At(z, p.current, h) == Some(p.disk[h])
    {
      CurrentReadsDisk(p, h);
      assert ChainOk(p, p.current);
    }
    if Inv(z) {
      forall h | 0 <= h < |z.disk| ensures At(z, longest, h) == Some(z.disk[h]) { CurrentReadsDisk(z, h); }
    }
  }

  // ---------------------------------------------------------------- over any path

  /** A chain on the way from `id` to the disk has the root of `id`, and refers to the disk only as
      that root. */
  lemma {:induction false} OnPathBelow(p: Pool, id: Id, i: Id)
    requires Acyclic(p) && id in p.chains && i in Path(p, id)
    ensures i in p.chains && Root(p, i) == Root(p, id)
    ensures p.chains[i].refer.Disk? ==> i == Root(p, id)
    decreases Rank(p, Chain(id))
  {
    ParentIsBelow(p, id);
    if i != id { OnPathBelow(p, p.chains[id].refer.id, i); }
  }

  /** What the cut leaves of a real fork on the way from `longest` to current. */
  lemma CutKeepsPart(p: Pool, longest: Id, f: int, i: Id)
    requires Inv(p) && longest in p.chains && Root(p, longest) == p.current && 0 <= f
    requires i in Path(p, longest) && PartsAt(p, longest, i)
    ensures Inv(PopTo(p, f)) && i in PopTo(p, f).chains && Sound(PopTo(p, f), i) && PartsAt(PopTo(p, f), longest, i)
  {
    OnPathBelow(p, longest, i);
    assert Sound(p, i) && Sound(p, longest);
    PopToContinues(p, f, i);
    PopToContinues(p, f, longest);
    PopToOthers(p, f, i);
    PopToRoots(p, f, longest);
    if i == p.current { CutPartsFromCurrent(PopTo(p, f), longest); } else { CutPartsAbove(p, longest, f, i); }
  }

  /** Whatever rests on current goes on above current's tail, where the disk has nothing. */
  lemma CutPartsFromCurrent(q: Pool, longest: Id)
    requires Inv(q) && longest in q.chains && Sound(q, longest) && q.chains[q.current].tail < q.chains[longest].head
    ensures PartsAt(q, longest, q.current)
  {
    assert ChainOk(q, q.current);
    assert At(q, longest, q.chains[q.current].tail + 1).Some?;
  }

  lemma CutPartsAbove(p: Pool, longest: Id, f: int, i: Id)
    requires Inv(p) && longest in p.chains && Root(p, longest) == p.current && 0 <= f
    requires i in p.chains && p.chains[i].refer.Chain? && Root(p, i) == p.current && PartsAt(p, longest, i)
    requires Inv(PopTo(p, f)) && PopTo(p, f).chains[i] == p.chains[i]
    requires PopTo(p, f).chains[longest].head == p.chains[longest].head
    ensures PartsAt(PopTo(p, f), longest, i)
  {
    var h, j := p.chains[i].tail + 1, p.chains[i].refer.id;
    ParentIsBelow(p, i);
    PopToSpares(p, f, longest, h);
    PopToSpares(p, f, j, h);
    PartedAlike(p, PopTo(p, f), longest, i, j, h);
  }

  lemma PartedAlike(p: Pool, q: Pool, to: Id, i: Id, j: Id, h: int)
    requires Acyclic(p) && Acyclic(q) && to in p.chains && to in q.chains && i in p.chains && i in q.chains
    requires j in p.chains && j in q.chains && p.chains[i].refer == Chain(j) && q.chains[i] == p.chains[i]
    requires h == p.chains[i].tail + 1 && q.chains[to].head == p.chains[to].head
    requires At(q, to, h) == At(p, to, h) && At(q, j, h) == At(p, j, h) && PartsAt(p, to, i)
    ensures PartsAt(q, to, i)
  {
  }

  /** For a target on current whose way down to it is a chain of real forks: after the rollback,
      re-rooting as written (or with the bound read once) keeps the meaning of every chain exactly
      when the hops fit once current's tail is lowered to where the disk is cut. */
  lemma PathForkExactly(p: Pool, longest: Id, f: int, once: bool)
    requires Inv(p) && longest in p.chains && Root(p, longest) == p.current && 0 <= f
    requires PartsEverywhere(p, longest) && HashIdentifies(Held(p))
    ensures TreeOk(PopTo(p, f))
    ensures KeepsMeaning(PopTo(p, f), longest, once) <==> CutFits(p, longest, CutHeight(p, f), once)
  {
    var q := PopTo(p, f);
    PopToRoots(p, f, longest);
    PopToHolds(p, f);
    SameRefsAfterCut(p, f);
    SameRefsPath(p, q, longest);
    forall i | i in Path(q, longest)
      ensures Sound(q, i) && PartsAt(q, longest, i)
    {
      CutKeepsPart(p, longest, f, i);
    }
    FitsAfterCut(p, longest, f, once);
    RerootKeepsExactly(q, longest, once);
  }

  lemma SameRefsAfterCut(p: Pool, f: int)
    requires Inv(p) && 0 <= f
    ensures SameRefs(p, PopTo(p, f))
  {
    forall i | i in p.chains ensures PopTo(p, f).chains[i].refer == p.chains[i].refer { PopToOthers(p, f, i); }
  }

  // ---------------------------------------------------------------- an account's fork

  /** Above the fork point the scan saw different hashes. */
  lemma {:induction false} ScanDiffers(p: Pool, a: Id, b: Id, i: int, h: int)
    requires TreeOk(p) && a in p.chains && b in p.chains && Scan(p, a, b, i).Some? && Scan(p, a, b, i).value < h <= i
    ensures At(p, a, h).Some? && At(p, b, h).Some? && At(p, a, h).value.hash != At(p, b, h).value.hash
    decreases Max(i + 1, 0)
  {
    ScanTurns(p, a, b, i);
    if h < i { ScanDiffers(p, a, b, i - 1, h); }
  }

  /** A rollback takes blocks from lookups and puts none in. */
  lemma {:induction false} PopToTakes(p: Pool, n: int, id: Id, h: int)
    requires Inv(p) && -1 <= n && id in p.chains
    ensures Inv(PopTo(p, n)) && (At(PopTo(p, n), id, h) == At(p, id, h) || At(PopTo(p, n), id, h).None?)
    decreases |p.disk|
  {
    if n < |p.disk| - 1 {
      var q := Pop(p);
      CurrentIsSound(p);
      PopKeepsInv(p);
      PopIsRegrown(p);
      SameRefsRoot(p, q, id);
      if Root(p, id) == p.current { RegrownKeepsLive(q, p, id, h); } else { RegrownElsewhere(q, p, id, h); }
      PopToTakes(q, n, id, h);
    }
  }

  /** `getForkPointByChains`: the scan runs down from the head of the lower chain. */
  ghost predicate ForksAt(p: Pool, to: Id, f: int)
    requires TreeOk(p) && to in p.chains && p.current in p.chains
  {
    if p.chains[p.current].head < p.chains[to].head then ForkPoint(p, to, p.current) == Some(f)
    else ForkPoint(p, p.current, to) == Some(f)
  }

  /** An account's store answers the block it removed last as its head. So once a rollback to the fork
      point has removed anything, the switch that follows it is refused, unless the target ends at the
      fork point: the block removed last lies just above it, where the target holds another. */
  lemma AccountForkIsRefused(p: Pool, to: Id, f: int, once: bool)
    requires Inv(p) && to in p.chains && ForksAt(p, to, f) && f < |p.disk| - 1 && f < p.chains[to].head
    ensures Inv(PopTo(p, f)) && SwitchAsked(PopTo(p, f), to, p.disk[f + 1], once) == Some(PopTo(p, f))
  {
    assert ChainOk(p, p.current);
    if p.chains[p.current].head < p.chains[to].head {
      ScanDiffers(p, to, p.current, p.chains[p.current].head, f + 1);
    } else {
      ScanDiffers(p, p.current, to, p.chains[to].head, f + 1);
    }
    CurrentReadsDisk(p, f + 1);
    PopToTakes(p, f, to, f + 1);
  }

  // ---------------------------------------------------------------- a fork directly off current

  lemma {:induction false} PopToHolds(p: Pool, n: int)
    requires p.current in p.chains && -1 <= n
    ensures Held(PopTo(p, n)) <= Held(p)
    decreases |p.disk|
  {
    if n < |p.disk| - 1 {
      var q := Pop(p);
      forall b | b in Held(q)
        ensures b in Held(p)
      {
        if i :| 0 <= i < |q.disk| && q.disk[i] == b {
          assert p.disk[i] == b;
        } else {
          var id, h :| id in q.chains && h in q.chains[id].blocks && q.chains[id].blocks[h] == b;
          if id == p.current && h == |p.disk| - 1 {
            assert p.disk[h] == b;
          } else {
            assert h in p.chains[id].blocks && p.chains[id].blocks[h] == b;
          }
        }
      }
      PopToHolds(q, n);
    }
  }

  lemma ForkParts(p: Pool, longest: Id)
    requires Inv(p) && longest in p.chains && p.chains[longest].refer == Chain(p.current)
    requires Sound(p, longest) && p.chains[longest].tail < p.chains[longest].head
    requires p.chains[p.current].tail <= p.chains[longest].tail
    requires At(p, longest, p.chains[longest].tail + 1) != At(p, p.current, p.chains[longest].tail + 1)
    ensures Path(p, longest) == [longest, p.current]
    ensures PathSound(p, longest) && PartsEverywhere(p, longest)
  {
    CurrentIsSound(p);
    var t := p.chains[p.current].tail;
    assert DiskBlock(p.disk, t + 1).None?;
    assert ChainOk(p, p.current);
    assert At(p, longest, t + 1).Some?;
    assert PartsAt(p, longest, longest) && PartsAt(p, longest, p.current);
  }

  lemma PartsAtForkPoint(p: Pool, longest: Id, f: int)
    requires Inv(p) && longest in p.chains && p.chains[longest].refer == Chain(p.current) && Sound(p, longest)
    requires p.chains[p.current].head <= p.chains[longest].head && HashIdentifies(Held(p))
    requires ForkPoint(p, longest, p.current) == Some(f) && f == p.chains[longest].tail < p.chains[longest].head
    ensures At(p, longest, f + 1) != At(p, p.current, f + 1)
  {
    CurrentIsSound(p);
    if f < p.chains[p.current].head {
      AboveForkPoint(p, longest, p.current, f + 1);
    } else {
      NothingAboveCurrent(p, f + 1);
      assert At(p, longest, f + 1).Some?;
    }
  }

  lemma NothingAboveCurrent(p: Pool, h: int)
    requires Inv(p) && p.chains[p.current].head < h
    ensures At(p, p.current, h).None?
  {
    assert ChainOk(p, p.current);
    OwnOrParent(p, p.current, h);
  }

  /** For a fork taken directly off current: after the rollback, re-rooting as written keeps the
      meaning of every chain exactly when the fork point is at most one above the disk's head. */
  lemma DirectForkExactly(p: Pool, longest: Id)
    requires Inv(p) && |p.disk| > 0 && longest in p.chains && p.chains[longest].refer == Chain(p.current)
    requires p.chains[p.current].head <= p.chains[longest].head && HashIdentifies(Held(p))
    requires ForkPoint(p, longest, p.current) == Some(p.chains[longest].tail)
    requires p.chains[longest].tail < p.chains[longest].head
    ensures var q := PopTo(p, p.chains[longest].tail);
            && TreeOk(q)
            && (KeepsMeaning(q, longest, false) <==> p.chains[longest].tail <= DiskHead(p.disk).height + 1)
  {
    var f := p.chains[longest].tail;
    CutAtFork(p, longest, f);
    HeadHeight(p.disk);
    CutThenReroot(PopTo(p, f), longest, |p.disk| - 1, f);
  }

  lemma HeadHeight(disk: seq<Block>)
    requires DiskOk(disk) && |disk| > 0
    ensures DiskHead(disk).height == |disk| - 1
  {
  }

  /** Ready to re-root on a chain that forks directly off current. */
  ghost predicate ForksOff(q: Pool, longest: Id, f: int) {
    && Inv(q) && longest in q.chains && q.chains[longest].refer == Chain(q.current)
    && Sound(q, longest) && HashIdentifies(Held(q))
    && q.chains[longest].tail == f < q.chains[longest].head
    && At(q, longest, f + 1) != At(q, q.current, f + 1)
  }

  lemma CutThenReroot(q: Pool, longest: Id, n: int, f: int)
    requires ForksOff(q, longest, f) && q.chains[q.current].tail == Min(n, f)
    ensures TreeOk(q) && (KeepsMeaning(q, longest, false) <==> f <= n + 1)
  {
    DirectRerootExactly(q, longest);
  }

  lemma DirectRerootExactly(q: Pool, longest: Id)
    requires Inv(q) && longest in q.chains && q.chains[longest].refer == Chain(q.current)
    requires Sound(q, longest) && HashIdentifies(Held(q))
    requires q.chains[q.current].tail <= q.chains[longest].tail < q.chains[longest].head
    requires At(q, longest, q.chains[longest].tail + 1) != At(q, q.current, q.chains[longest].tail + 1)
    ensures KeepsMeaning(q, longest, false) <==> q.chains[longest].tail <= q.chains[q.current].tail + 1
  {
    ForkParts(q, longest);
    RerootKeepsExactly(q, longest, false);
    OneHopFits(q, longest);
  }

  lemma OneHopFits(q: Pool, to: Id)
    requires TreeOk(q) && to in q.chains && q.chains[to].refer.Chain? && q.chains[to].refer.id in q.chains
    requires Path(q, to) == [to, q.chains[to].refer.id]
    ensures HopsFit(q, to, false) <==>
            q.chains[q.chains[to].refer.id].tail <= q.chains[to].tail <= q.chains[q.chains[to].refer.id].tail + 1
  {
    var path := Path(q, to);
    assert path[0] == to && path[0 + 1] == q.chains[to].refer.id;
    assert HopsFit(q, to, false) <==> FitsAt(q, path, 0, false);
  }

  /** What the rollback to a direct fork's tail leaves. */
  lemma CutAtFork(p: Pool, longest: Id, f: int)
    requires Inv(p) && |p.disk| > 0 && longest in p.chains && p.chains[longest].refer == Chain(p.current)
    requires p.chains[p.current].head <= p.chains[longest].head && HashIdentifies(Held(p))
    requires ForkPoint(p, longest, p.current) == Some(f) && f == p.chains[longest].tail < p.chains[longest].head
    ensures var q := PopTo(p, f);
            && ForksOff(q, longest, f) && q.chains[q.current].tail == Min(|p.disk| - 1, f)
  {
    CurrentIsSound(p);
    PopToContinues(p, f, longest);
    PopToOthers(p, f, longest);
    PopToHolds(p, f);
    CutAtForkDiffers(p, longest, f);
  }

  lemma CutAtForkDiffers(p: Pool, longest: Id, f: int)
    requires Inv(p) && longest in p.chains && p.chains[longest].refer == Chain(p.current) && Sound(p, longest)
    requires p.chains[p.current].head <= p.chains[longest].head && HashIdentifies(Held(p))
    requires ForkPoint(p, longest, p.current) == Some(f) && f == p.chains[longest].tail < p.chains[longest].head && f >= -1
    ensures Inv(PopTo(p, f)) && At(PopTo(p, f), longest, f + 1) != At(PopTo(p, f), p.current, f + 1)
  {
    RootOfChild(p, longest);
    PartsAtForkPoint(p, longest, f);
    PopToSpares(p, f, longest, f + 1);
    PopToSpares(p, f, p.current, f + 1);
  }

  lemma RootOfChild(p: Pool, longest: Id)
    requires Inv(p) && longest in p.chains && p.chains[longest].refer == Chain(p.current)
    ensures Root(p, longest) == p.current && Root(p, p.current) == p.current && longest != p.current
  {
  }
}
