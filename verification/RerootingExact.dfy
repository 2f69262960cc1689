/** Exactly when re-rooting keeps every chain's meaning: when no tail on the path rises going
    down and, for the loop as written, none drops by more than one. */
module RerootingExact {
  import opened Blocks
  import opened ForkTree
  import opened Rerooting

  /** Right above every tail on its way down, the target has a block that what lies below that
      tail does not have: each chain on the path is a real fork. */
  ghost predicate PartsEverywhere(p: Pool, to: Id)
    requires Acyclic(p) && to in p.chains
  {
    forall i | i in Path(p, to) :: PartsAt(p, to, i)
  }

  ghost predicate PartsAt(p: Pool, to: Id, i: Id)
    requires Acyclic(p) && to in p.chains && i in p.chains
  {
    ParentIsBelow(p, i);
    && p.chains[i].tail < p.chains[to].head
    && At(p, to, p.chains[i].tail + 1) != Get(p, p.chains[i].refer, p.chains[i].tail + 1)
  }

  ghost predicate PathSound(p: Pool, to: Id)
    requires Acyclic(p) && to in p.chains
  {
    forall i | i in Path(p, to) :: Sound(p, i)
  }

  /** A block that a sound chain shares with the disk comes with its whole history. */
  lemma {:induction false} AgreeBelowDisk(p: Pool, a: Id, top: int, h: int)
    requires Acyclic(p) && a in p.chains && Sound(p, a) && DiskOk(p.disk)
    requires HashIdentifies(Held(p))
    requires 0 <= h <= top <= p.chains[a].head && At(p, a, top) == DiskBlock(p.disk, top)
    ensures At(p, a, h) == DiskBlock(p.disk, h)
    decreases top - h
  {
    if h < top {
      LookupIsHeld(p, Chain(a), top - 1);
      assert SoundAt(p, a, top) && DiskLinkAt(p.disk, top);
      assert HashAt(p, a, top - 1) == At(p, a, top).value.preHash == p.disk[top - 1].hash;
      assert p.disk[top - 1] in Held(p);
      AgreeBelowDisk(p, a, top - 1, h);
    }
  }

  lemma MissingOnDisk(p: Pool, to: Id, t: int, h: int)
    requires Acyclic(p) && DiskOk(p.disk) && to in p.chains && Sound(p, to) && HashIdentifies(Held(p))
    requires -1 <= t < h <= p.chains[to].head && At(p, to, t + 1) != DiskBlock(p.disk, t + 1)
    ensures DiskBlock(p.disk, h) != At(p, to, h)
  {
    if DiskBlock(p.disk, h) == At(p, to, h) { AgreeBelowDisk(p, to, h, t + 1); }
  }

  lemma MissingInChain(p: Pool, to: Id, r: Id, t: int, h: int)
    requires Acyclic(p) && to in p.chains && r in p.chains && Sound(p, to) && Sound(p, r)
    requires HashIdentifies(Held(p))
    requires -1 <= t < h <= p.chains[to].head && h <= p.chains[r].head && At(p, to, t + 1) != At(p, r, t + 1)
    ensures At(p, r, h) != At(p, to, h)
  {
    if At(p, r, h) == At(p, to, h) { AgreeBelow(p, to, r, h, t + 1); }
  }

  lemma TailInRange(p: Pool, i: Id)
    requires TreeOk(p) && i in p.chains
    ensures -1 <= p.chains[i].tail <= p.chains[i].head
    ensures forall h :: h in p.chains[i].blocks <==> p.chains[i].tail < h <= p.chains[i].head
  {
    assert ChainOk(p, i);
  }

  /** Nothing below a real fork offers the target's block at a height above that fork. */
  lemma {:induction false} MissingBelow(p: Pool, to: Id, i: Id, h: int)
    requires TreeOk(p) && DiskOk(p.disk) && to in p.chains && i in p.chains
    requires Sound(p, to) && PathSound(p, i) && HashIdentifies(Held(p))
    requires forall j | j in Path(p, i) :: PartsAt(p, to, j)
    requires p.chains[i].tail < h <= p.chains[to].head
    ensures InPool(p, p.chains[i].refer) && Get(p, p.chains[i].refer, h) != At(p, to, h)
    decreases Rank(p, Chain(i))
  {
    ParentIsBelow(p, i);
    TailInRange(p, i);
    var r, t := p.chains[i].refer, p.chains[i].tail;
    assert i in Path(p, i) && PartsAt(p, to, i);
    if r.Disk? {
      MissingOnDisk(p, to, t, h);
    } else {
      assert Path(p, i) == [i] + Path(p, r.id) && r.id in Path(p, r.id) && r.id in Path(p, i);
      if h <= p.chains[r.id].head {
        MissingInChain(p, to, r.id, t, h);
      } else {
        TailInRange(p, r.id);
        OwnOrParent(p, r.id, h);
        assert forall j | j in Path(p, r.id) :: j in Path(p, i);
        MissingBelow(p, to, r.id, h);
      }
    }
  }

  // ---------------------------------------------------------------- what later swaps cannot mend

  ghost predicate Walkable(p: Pool, to: Id)
    requires Acyclic(p) && to in p.chains
  {
    && (forall h :: h in p.chains[to].blocks <==> p.chains[to].tail < h <= p.chains[to].head)
    && (forall i | i in Path(p, to)[1..] :: Filled(p.chains[i]))
  }

  lemma SwapKeepsUpper(p: Pool, to: Id, once: bool, h: int)
    requires Acyclic(p) && to in p.chains && p.chains[to].refer.Chain? && Walkable(p, to)
    requires p.chains[to].refer.id in p.chains && SwapRuns(p, p.chains[to].refer.id, to, once)
    requires p.chains[to].tail <= h <= p.chains[to].head
    ensures var q := Swap(p, p.chains[to].refer.id, to, once);
            && Acyclic(q) && Walkable(q, to) && At(q, to, h) == At(p, to, h)
            && q.chains[to].tail <= h <= q.chains[to].head
  {
    var from := p.chains[to].refer.id;
    var f, t := p.chains[from], p.chains[to];
    var low := Low(f, t, once);
    var q := Shift(p, from, to, low);
    ParentIsBelow(p, to);
    ShiftPath(p, from, to, low);
    ShiftLookups(p, from, to, low, h);
    assert Path(p, to)[1..] == Path(p, from) && from in Path(p, to)[1..];
    OwnOrParent(p, to, h);
    OwnOrParent(p, from, h);
    forall i | i in Path(q, to)[1..]
      ensures Filled(q.chains[i])
    {
      assert i in Path(p, from)[1..] && i in Path(p, to)[1..];
    }
    var t' := Took(f, t, low);
    assert forall k :: k in t'.blocks <==> t'.tail < k <= t'.head;
  }

  lemma SwapWalkable(p: Pool, from: Id, to: Id, once: bool)
    requires TreeOk(p) && from in p.chains && to in p.chains && p.chains[to].refer == Chain(from)
    requires SwapRuns(p, from, to, once)
    ensures Acyclic(Swap(p, from, to, once)) && Walkable(Swap(p, from, to, once), to)
  {
    assert ChainOk(p, from) && ChainOk(p, to);
    assert Path(p, to)[1..] == Path(p, from);
    forall i | i in Path(p, to)[1..]
      ensures Filled(p.chains[i])
    {
      assert ChainOk(p, i);
    }
    SwapKeepsUpper(p, to, once, p.chains[to].tail);
  }

  /** The rest of the loop leaves the target's lookups at and above its tail alone. */
  lemma {:induction false} RerootKeepsUpper(p: Pool, to: Id, once: bool, h: int)
    requires Acyclic(p) && to in p.chains && Walkable(p, to) && Reroot(p, to, once).Some?
    requires p.chains[to].tail <= h <= p.chains[to].head
    ensures var z := Reroot(p, to, once).value;
            Acyclic(z) && to in z.chains && At(z, to, h) == At(p, to, h)
    decreases |Path(p, to)|
  {
    RerootFrame(p, to, once);
    if p.chains[to].refer.Chain? {
      RerootSteps(p, to, once);
      SwapKeepsUpper(p, to, once, h);
      RerootKeepsUpper(Swap(p, p.chains[to].refer.id, to, once), to, once, h);
    }
  }

  /** The rest of the loop touches no chain off the path. */
  lemma {:induction false} RerootKeepsOthers(p: Pool, to: Id, once: bool, id: Id)
    requires Acyclic(p) && to in p.chains && Reroot(p, to, once).Some?
    requires id in p.chains && id !in Path(p, to)
    ensures id in Reroot(p, to, once).value.chains
    ensures Reroot(p, to, once).value.chains[id] == p.chains[id]
    decreases |Path(p, to)|
  {
    if p.chains[to].refer.Chain? {
      var from := p.chains[to].refer.id;
      RerootSteps(p, to, once);
      ShiftPath(p, from, to, Low(p.chains[from], p.chains[to], once));
      assert from in Path(p, from);
      RerootKeepsOthers(Swap(p, from, to, once), to, once, id);
    }
  }

  // ---------------------------------------------------------------- the two ways to misfit

  lemma PathStep(p: Pool, to: Id)
    requires Acyclic(p) && to in p.chains && p.chains[to].refer.Chain?
    ensures p.chains[to].refer.id in p.chains && to in Path(p, to)
    ensures forall i | i in Path(p, p.chains[to].refer.id) :: i in Path(p, to)
  {
    ParentIsBelow(p, to);
    assert Path(p, to) == [to] + Path(p, p.chains[to].refer.id);
  }

  /** A child whose tail is two or more above its parent's loses the block below its new tail. */
  lemma LongHopLoses(p: Pool, to: Id)
    requires TreeOk(p) && DiskOk(p.disk) && to in p.chains && HashIdentifies(Held(p))
    requires PathSound(p, to) && PartsEverywhere(p, to) && p.chains[to].refer.Chain?
    requires p.chains[to].refer.id in p.chains
    requires p.chains[p.chains[to].refer.id].tail + 1 < p.chains[to].tail
    requires Reroot(p, to, false).Some?
    ensures Acyclic(Reroot(p, to, false).value) && to in Reroot(p, to, false).value.chains
    ensures At(Reroot(p, to, false).value, to, p.chains[to].tail - 1) != At(p, to, p.chains[to].tail - 1)
  {
    LongHopSwap(p, to);
    var q := Swap(p, p.chains[to].refer.id, to, false);
    RerootKeepsUpper(q, to, false, p.chains[to].tail - 1);
  }

  lemma LongHopSwap(p: Pool, to: Id)
    requires TreeOk(p) && DiskOk(p.disk) && to in p.chains && HashIdentifies(Held(p))
    requires PathSound(p, to) && PartsEverywhere(p, to) && p.chains[to].refer.Chain?
    requires p.chains[to].refer.id in p.chains
    requires p.chains[p.chains[to].refer.id].tail + 1 < p.chains[to].tail
    requires Reroot(p, to, false).Some?
    ensures SwapRuns(p, p.chains[to].refer.id, to, false)
    ensures var q, h := Swap(p, p.chains[to].refer.id, to, false), p.chains[to].tail - 1;
            && Acyclic(q) && Walkable(q, to) && q.chains[to].tail == h <= q.chains[to].head
            && Reroot(q, to, false) == Reroot(p, to, false) && At(q, to, h) != At(p, to, h)
  {
    var from := p.chains[to].refer.id;
    RerootSteps(p, to, false);
    ShortSwapLookup(p, from, to);
    BelowDiffers(p, to);
  }

  lemma BelowDiffers(p: Pool, to: Id)
    requires TreeOk(p) && DiskOk(p.disk) && to in p.chains && HashIdentifies(Held(p))
    requires PathSound(p, to) && PartsEverywhere(p, to) && p.chains[to].refer.Chain?
    requires p.chains[to].refer.id in p.chains
    requires p.chains[p.chains[to].refer.id].tail + 1 < p.chains[to].tail
    ensures var from, h := p.chains[to].refer.id, p.chains[to].tail - 1;
            InPool(p, p.chains[from].refer) && Get(p, p.chains[from].refer, h) != At(p, to, h)
  {
    var from := p.chains[to].refer.id;
    TailInRange(p, from);
    TailInRange(p, to);
    PathStep(p, to);
    MissingBelow(p, to, from, p.chains[to].tail - 1);
  }

  /** A swap that moves one block leaves the child reading below the parent at its new tail. */
  lemma ShortSwapLookup(p: Pool, from: Id, to: Id)
    requires TreeOk(p) && from in p.chains && to in p.chains && p.chains[to].refer == Chain(from)
    requires p.chains[from].tail + 1 < p.chains[to].tail && SwapRuns(p, from, to, false)
    ensures var q, h := Swap(p, from, to, false), p.chains[to].tail - 1;
            && Acyclic(q) && Walkable(q, to) && q.chains[to].tail == h <= q.chains[to].head
            && InPool(p, p.chains[from].refer) && At(q, to, h) == Get(p, p.chains[from].refer, h)
  {
    TailInRange(p, to);
    ShiftLookups(p, from, to, p.chains[to].tail - 1, p.chains[to].tail - 1);
    SwapWalkable(p, from, to, false);
  }

  /** A parent whose tail is above its child's starts reading the child's blocks below it. */
  lemma RisingHopTakes(p: Pool, to: Id, once: bool)
    requires TreeOk(p) && to in p.chains && PartsEverywhere(p, to) && p.chains[to].refer.Chain?
    requires p.chains[to].refer.id in p.chains
    requires p.chains[to].tail < p.chains[p.chains[to].refer.id].tail
    requires Reroot(p, to, once).Some?
    ensures var from, z := p.chains[to].refer.id, Reroot(p, to, once).value;
            && Acyclic(z) && from in z.chains
            && At(z, from, p.chains[to].tail + 1) != At(p, from, p.chains[to].tail + 1)
  {
    var from := p.chains[to].refer.id;
    var h := p.chains[to].tail + 1;
    assert ChainOk(p, from) && ChainOk(p, to);
    assert to in Path(p, to) && PartsAt(p, to, to);
    OwnOrParent(p, to, h);
    RerootFrame(p, to, once);
    RerootSteps(p, to, once);
    var z, low := Reroot(p, to, once).value, p.chains[to].tail;
    var q := Shift(p, from, to, low);
    ShiftLookups(p, from, to, low, h);
    ShiftPath(p, from, to, low);
    SwapWalkable(p, from, to, once);
    RerootKeepsUpper(q, to, once, h);
    FromLeavesPath(p, from, to, low);
    RerootKeepsOthers(q, to, once, from);
    OwnOrParent(z, from, h);
  }

  lemma FromLeavesPath(p: Pool, from: Id, to: Id, low: int)
    requires Acyclic(p) && from in p.chains && to in p.chains && CanShift(p.chains[from], p.chains[to], low)
    requires p.chains[to].refer == Chain(from)
    ensures Acyclic(Shift(p, from, to, low)) && from !in Path(Shift(p, from, to, low), to)
  {
    ShiftPath(p, from, to, low);
    var rank := RankOf(p);
    assert Descends(p, rank, to) && Descends(p, rank, from);
    if p.chains[from].refer.Chain? {
      PathBelow(p, p, rank, rank[from], p.chains[from].refer.id);
      assert Path(p, from)[1..] == Path(p, p.chains[from].refer.id);
    }
  }

  // ---------------------------------------------------------------- the exact condition

  lemma FullShiftHolds(p: Pool, to: Id, once: bool)
    requires TreeOk(p) && to in p.chains && p.chains[to].refer.Chain?
    requires p.chains[to].refer.id in p.chains && HopFits(p, to, once)
    ensures SwapRuns(p, p.chains[to].refer.id, to, once)
    ensures Held(Swap(p, p.chains[to].refer.id, to, once)) <= Held(p)
  {
    var from := p.chains[to].refer.id;
    TreeIsShapely(p);
    FittingSwapIsFull(p, to, once);
    var q := Swap(p, from, to, once);
    forall id, h | id in q.chains && h in q.chains[id].blocks
      ensures q.chains[id].blocks[h] in Held(p)
    {
      var b := q.chains[id].blocks[h];
      assert (exists i | i in p.chains :: h in p.chains[i].blocks && p.chains[i].blocks[h] == b);
    }
  }

  /** A fitting first swap leaves the rest of the walk as real a chain of forks as before. */
  lemma SwapKeepsForks(p: Pool, to: Id, once: bool)
    requires TreeOk(p) && to in p.chains && p.chains[to].refer.Chain?
    requires p.chains[to].refer.id in p.chains && HopFits(p, to, once)
    requires PathSound(p, to) && PartsEverywhere(p, to) && to in Path(p, to)
    ensures SwapRuns(p, p.chains[to].refer.id, to, once)
    ensures var q := Swap(p, p.chains[to].refer.id, to, once);
            Acyclic(q) && PathSound(q, to) && PartsEverywhere(q, to)
  {
    var from := p.chains[to].refer.id;
    TreeIsShapely(p);
    FittingSwapIsFull(p, to, once);
    FittingSwap(p, to, once);
    var low := Low(p.chains[from], p.chains[to], once);
    var q := Shift(p, from, to, low);
    ShiftPath(p, from, to, low);
    forall i | i in Path(q, to)
      ensures Sound(q, i) && PartsAt(q, to, i)
    {
      assert i == to || (i in Path(p, from)[1..] && i in Path(p, to));
      assert SameLogical(p, q, i);
      SameLogicalKeepsSound(p, q, i);
      SwapKeepsPart(p, to, once, i);
    }
  }

  lemma SwapKeepsPart(p: Pool, to: Id, once: bool, i: Id)
    requires TreeOk(p) && to in p.chains && p.chains[to].refer.Chain?
    requires p.chains[to].refer.id in p.chains && HopFits(p, to, once)
    requires PartsEverywhere(p, to) && Sound(p, to)
    requires i == to || i in Path(p, p.chains[to].refer.id)[1..]
    ensures SwapRuns(p, p.chains[to].refer.id, to, once)
    ensures var q := Swap(p, p.chains[to].refer.id, to, once);
            Acyclic(q) && i in q.chains && PartsAt(q, to, i)
  {
    var from := p.chains[to].refer.id;
    TreeIsShapely(p);
    FittingSwapIsFull(p, to, once);
    FittingSwap(p, to, once);
    PathStep(p, to);
    var src := if i == to then from else i;
    assert from in Path(p, from) && src in Path(p, from) && PartsAt(p, to, src);
    assert SameLogical(p, Swap(p, from, to, once), to);
    ShiftedPart(p, Swap(p, from, to, once), from, to, Low(p.chains[from], p.chains[to], once), src, i);
  }

  /** `to` takes over what `from` stood on; a chain further down stands where it stood. */
  lemma ShiftedPart(p: Pool, q: Pool, from: Id, to: Id, low: int, src: Id, i: Id)
    requires Acyclic(p) && from in p.chains && to in p.chains && CanShift(p.chains[from], p.chains[to], low)
    requires p.chains[to].refer == Chain(from) && src in Path(p, from) && PartsAt(p, to, src)
    requires Took(p.chains[from], p.chains[to], low).tail == p.chains[from].tail
    requires (i == to && src == from) || (i == src && i in Path(p, from)[1..])
    requires q == Shift(p, from, to, low) && Acyclic(q) && to in q.chains && SameLogical(p, q, to)
    ensures i in q.chains && PartsAt(q, to, i)
  {
    BelowIsSame(p, from, to, low, src, p.chains[src].tail + 1);
    StandsThere(p, from, to, low, src, i);
    SamePart(p, q, to, src, i);
  }

  lemma StandsThere(p: Pool, from: Id, to: Id, low: int, src: Id, i: Id)
    requires Acyclic(p) && from in p.chains && to in p.chains && CanShift(p.chains[from], p.chains[to], low)
    requires p.chains[to].refer == Chain(from) && src in Path(p, from)
    requires Took(p.chains[from], p.chains[to], low).tail == p.chains[from].tail
    requires (i == to && src == from) || (i == src && i in Path(p, from)[1..])
    ensures var q := Shift(p, from, to, low);
            src in p.chains && i in q.chains && q.chains[i].tail == p.chains[src].tail && q.chains[i].refer == p.chains[src].refer
  {
    ShiftPath(p, from, to, low);
  }

  lemma SamePart(p: Pool, q: Pool, to: Id, src: Id, i: Id)
    requires Acyclic(p) && Acyclic(q) && to in p.chains && to in q.chains && src in p.chains && i in q.chains
    requires SameLogical(p, q, to) && PartsAt(p, to, src)
    requires q.chains[i].tail == p.chains[src].tail && q.chains[i].refer == p.chains[src].refer
    requires InPool(p, p.chains[src].refer) && InPool(q, p.chains[src].refer)
    requires Get(q, p.chains[src].refer, p.chains[src].tail + 1) == Get(p, p.chains[src].refer, p.chains[src].tail + 1)
    ensures PartsAt(q, to, i)
  {
    ParentIsBelow(q, i);
  }

  lemma BelowIsSame(p: Pool, from: Id, to: Id, low: int, i: Id, h: int)
    requires Acyclic(p) && from in p.chains && to in p.chains && CanShift(p.chains[from], p.chains[to], low)
    requires p.chains[to].refer == Chain(from) && i in Path(p, from)
    ensures var q := Shift(p, from, to, low);
            && Acyclic(q) && InPool(p, p.chains[i].refer) && InPool(q, p.chains[i].refer)
            && Get(q, p.chains[i].refer, h) == Get(p, p.chains[i].refer, h)
  {
    var rank, q := RankOf(p), Shift(p, from, to, low);
    var _ := ShiftRanked(p, from, to, low, rank);
    assert Descends(p, rank, to);
    PathBelow(p, p, rank, rank[from] + 1, from);
    assert Descends(p, rank, i);
    SameBelow(p, q, rank, rank[from], p.chains[i].refer, h);
  }

  /** A walk with a hop that does not fit changes what some chain means. */
  lemma {:induction false} MisfitBreaks(p: Pool, to: Id, once: bool)
    requires TreeOk(p) && DiskOk(p.disk) && to in p.chains && HashIdentifies(Held(p))
    requires PathSound(p, to) && PartsEverywhere(p, to)
    requires !HopsFit(p, to, once) && Reroot(p, to, once).Some?
    ensures Acyclic(Reroot(p, to, once).value) && !AllSameLogical(p, Reroot(p, to, once).value)
    decreases |Path(p, to)|
  {
    RerootFrame(p, to, once);
    var z := Reroot(p, to, once).value;
    if p.chains[to].refer.Chain? {
      PathStep(p, to);
      var from := p.chains[to].refer.id;
      TailInRange(p, from);
      TailInRange(p, to);
      if p.chains[to].tail < p.chains[from].tail {
        RisingHopTakes(p, to, once);
        assert !SameLogical(p, z, from);
      } else if !HopFits(p, to, once) {
        LongHopLoses(p, to);
        assert !SameLogical(p, z, to);
      } else {
        TreeIsShapely(p);
        SwapKeepsFit(p, to, once);
        FullShiftHolds(p, to, once);
        SwapKeepsForks(p, to, once);
        FittingSwap(p, to, once);
        RerootSteps(p, to, once);
        var q := Swap(p, from, to, once);
        MisfitBreaks(q, to, once);
        if AllSameLogical(p, z) {
          SameLogicalFlip(p, q);
          SameLogicalTrans(q, p, z);
          assert false;
        }
      }
    }
  }

  lemma SameLogicalFlip(p: Pool, q: Pool)
    requires Acyclic(p) && Acyclic(q) && AllSameLogical(p, q)
    ensures AllSameLogical(q, p)
  {
    forall i | i in p.chains
      ensures SameLogical(q, p, i)
    {
      assert SameLogical(p, q, i);
    }
  }

  /** Re-rooting runs to its end and every chain still means what it meant. */
  ghost predicate KeepsMeaning(p: Pool, to: Id, once: bool)
    requires Acyclic(p) && to in p.chains
  {
    Reroot(p, to, once).Some? && (RerootFrame(p, to, once); AllSameLogical(p, Reroot(p, to, once).value))
  }

  /** The condition on the tails is exact, for the loop as written and for the repaired one. */
  lemma RerootKeepsExactly(p: Pool, to: Id, once: bool)
    requires TreeOk(p) && DiskOk(p.disk) && to in p.chains && HashIdentifies(Held(p))
    requires PathSound(p, to) && PartsEverywhere(p, to)
    ensures KeepsMeaning(p, to, once) <==> HopsFit(p, to, once)
  {
    assert to in Path(p, to);
    if HopsFit(p, to, once) {
      RerootKeeps(p, to, once);
    } else if Reroot(p, to, once).Some? {
      MisfitBreaks(p, to, once);
    }
  }

  // ---------------------------------------------------------------- an input that breaks it

  /** A disk of one block, chain 1 on it with three blocks, chain 2 leaving chain 1 two above
      its tail. */
  function ShortOfOne(): Pool {
    var g, a1, a2 := Block(0, "g", ""), Block(1, "a1", "g"), Block(2, "a2", "a1");
    var a3, b3 := Block(3, "a3", "a2"), Block(3, "b3", "a2");
    Pool([g], map[1 := Forked(0, "g", 3, "a3", map[1 := a1, 2 := a2, 3 := a3], Disk),
                  2 := Forked(2, "", 3, "b3", map[3 := b3], Chain(1))], 1, 2)
  }

  /** Switching to chain 2 as written leaves it without the block at height 1. */
  lemma LongHopExample()
    ensures var p := ShortOfOne();
            && TreeOk(p) && Reroot(p, 2, false).Some?
            && var q := Reroot(p, 2, false).value;
            && Acyclic(q) && 2 in q.chains
            && At(p, 2, 1) == Some(Block(1, "a1", "g")) && At(q, 2, 1) == None
  {
    var p := ShortOfOne();
    assert Ranked(p, map[1 := 0, 2 := 1]);
    assert ChainOk(p, 1) && ChainOk(p, 2);
    OwnOrParent(p, 2, 1);
    RerootSteps(p, 2, false);
    var q := Swap(p, 1, 2, false);
    assert q.chains[2].refer == Disk;
    OwnOrParent(q, 2, 1);
  }
}
