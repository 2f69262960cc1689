/** What a chain's stored tail hash says.

    A forked chain is created without one: `forkChain` never copies it. A chain's tail hash is
    therefore either empty or the hash of the block its tail stands on, and no step that leaves
    the chain undisturbed changes that. */
module TailHashes {
  import opened Blocks
  import opened ForkTree
  import opened Rerooting
  import opened PoolSteps
  import opened PoolMachine
  import opened PoolRuns

  ghost predicate TailNamed(p: Pool, id: Id)
    requires Acyclic(p) && id in p.chains
  {
    var c := p.chains[id];
    c.tail >= 0 ==> c.tailHash == "" || c.tailHash == HashAt(p, id, c.tail)
  }

  lemma SameTailNamed(p: Pool, q: Pool, id: Id)
    requires TreeOk(p) && TreeOk(q) && id in p.chains && id in q.chains && TailNamed(p, id)
    requires q.chains[id].tail == p.chains[id].tail && q.chains[id].tailHash == p.chains[id].tailHash
    requires At(q, id, p.chains[id].tail) == At(p, id, p.chains[id].tail)
    ensures TailNamed(q, id)
  {
  }

  lemma PopTailNamed(p: Pool, id: Id)
    requires Inv(p) && |p.disk| > 0 && id in p.chains && Sound(p, id) && TailNamed(p, id)
    requires Root(p, id) == p.current || LowTail(p, id) < |p.disk| - 1
    ensures TreeOk(Pop(p)) && TailNamed(Pop(p), id)
  {
    PopContinues(p, id);
    assert ChainOk(p, id);
    if id == p.current {
      PoppedTailNamed(p);
    } else {
      SameTailNamed(p, Pop(p), id);
    }
  }

  /** The block put back under current names the one that is now the disk's head. */
  lemma PoppedTailNamed(p: Pool)
    requires |p.disk| > 0 && DiskOk(p.disk) && p.current in p.chains && p.chains[p.current].refer.Disk?
    requires TreeOk(Pop(p)) && p.chains[p.current].tail == |p.disk| - 1
    ensures TailNamed(Pop(p), p.current)
  {
    var q := Pop(p);
    assert ChainOk(q, p.current) && DiskLinkAt(p.disk, |p.disk| - 1);
    OwnOrParent(q, p.current, |p.disk| - 2);
  }

  lemma {:induction false} PopToTailNamed(p: Pool, n: int, id: Id)
    requires Inv(p) && -1 <= n && id in p.chains && Sound(p, id) && TailNamed(p, id)
    requires Root(p, id) == p.current || LowTail(p, id) <= n
    ensures Inv(PopTo(p, n)) && TailNamed(PopTo(p, n), id)
    decreases |p.disk|
  {
    if n < |p.disk| - 1 {
      PopKeepsInv(p);
      PopContinues(p, id);
      PopTailNamed(p, id);
      PopToTailNamed(Pop(p), n, id);
    }
  }

  lemma SwapTailNamed(p: Pool, to: Id, once: bool, id: Id)
    requires Shapely(p) && to in p.chains && p.chains[to].refer.Chain?
    requires p.chains[to].refer.id in p.chains && HopFits(p, to, once)
    requires id in p.chains && Sound(p, id) && TailNamed(p, id)
    ensures var from := p.chains[to].refer.id;
            && SwapRuns(p, from, to, once) && Acyclic(Swap(p, from, to, once))
            && id in Swap(p, from, to, once).chains && TailNamed(Swap(p, from, to, once), id)
            && Sound(Swap(p, from, to, once), id)
  {
    var from := p.chains[to].refer.id;
    FittingSwapShape(p, to, once);
    FittingSwapIsFull(p, to, once);
    var q := Swap(p, from, to, once);
    assert SameLogical(p, q, id) && ShapeOk(p, id);
    SameLogicalKeepsSound(p, q, id);
    if p.chains[from].tail < p.chains[to].tail {
      if id == to {
        TakerNamed(p, to, once);
      } else if id == from {
        OwnOrParent(p, from, p.chains[to].tail);
      }
    }
  }

  /** The chain that takes blocks is named by the lowest of them. */
  lemma TakerNamed(p: Pool, to: Id, once: bool)
    requires Shapely(p) && to in p.chains && Sound(p, to) && p.chains[to].refer.Chain?
    requires p.chains[to].refer.id in p.chains && HopFits(p, to, once)
    requires p.chains[p.chains[to].refer.id].tail < p.chains[to].tail
    ensures var q := HopAll(p, p.chains[to].refer.id, to);
            Acyclic(q) && to in q.chains && (SameLogical(p, q, to) ==> TailNamed(q, to))
  {
    var from := p.chains[to].refer.id;
    var f := p.chains[from].tail;
    FittingSwapShape(p, to, once);
    FittingSwapIsFull(p, to, once);
    OwnOrParent(p, to, f + 1);
    OwnOrParent(p, from, f + 1);
    if f >= 0 { assert SoundAt(p, to, f + 1); }
  }

  lemma {:induction false} RerootTailNamed(p: Pool, to: Id, once: bool, id: Id)
    requires Shapely(p) && to in p.chains && HopsFit(p, to, once)
    requires id in p.chains && Sound(p, id) && TailNamed(p, id)
    ensures Reroot(p, to, once).Some? && Acyclic(Reroot(p, to, once).value)
    ensures id in Reroot(p, to, once).value.chains && TailNamed(Reroot(p, to, once).value, id)
    decreases |Path(p, to)|
  {
    RerootKeepsShape(p, to, once);
    if p.chains[to].refer.Chain? {
      FirstHopFits(p, to, once);
      FittingSwapShape(p, to, once);
      SwapKeepsFit(p, to, once);
      RerootSteps(p, to, once);
      SwapTailNamed(p, to, once, id);
      RerootTailNamed(Swap(p, p.chains[to].refer.id, to, once), to, once, id);
    }
  }

  lemma DirectTailNamed(p: Pool, b: Block, id: Id)
    requires Inv(p) && NextOnDisk(p.disk, b) && id in p.chains && Sound(p, id) && TailNamed(p, id)
    ensures Inv(Direct(p, b)) && id in Direct(p, b).chains && TailNamed(Direct(p, b), id)
  {
    DirectKeepsInv(p, b);
    DirectContinues(p, b, id);
    DirectChains(p, b);
    assert ChainOk(p, id);
    if MovesUp(p, b) && id == p.current {
      OwnOrParent(Direct(p, b), id, |p.disk|);
    } else {
      SameTailNamed(p, Direct(p, b), id);
    }
  }

  lemma SwitchTailNamed(p: Pool, to: Id, id: Id)
    requires Shapely(p) && to in p.chains && HopsFit(p, to, false)
    requires id in p.chains && Sound(p, id) && TailNamed(p, id)
    ensures Switch(p, to, false).Some? && Acyclic(Switch(p, to, false).value)
    ensures id in Switch(p, to, false).value.chains && TailNamed(Switch(p, to, false).value, id)
  {
    SwitchKeepsMeaning(p, to, false);
    RerootTailNamed(p, to, false, id);
    var q, z := Reroot(p, to, false).value, Switch(p, to, false).value;
    if HoldsHead(p, to) {
      ExtendsKeeps(q, z, id, q.chains[id].tail);
    }
  }

  lemma InsertTailNamed(p: Pool, c: Id, w: Block, id: Id)
    requires Inv(p) && c in p.chains && id in p.chains && Sound(p, id) && TailNamed(p, id)
    ensures Inv(Insert(p, c, w)) && TailNamed(Insert(p, c, w), id)
  {
    InsertKeepsInv(p, c, w);
    InsertContinues(p, c, w, id);
    assert ChainOk(p, id);
    SameTailNamed(p, Insert(p, c, w), id);
  }

  lemma ForkTailNamed(p: Pool, parent: Id, s: Snippet, id: Id)
    requires Inv(p) && Forks(p, parent, s) && id in p.chains && Sound(p, id) && TailNamed(p, id)
    ensures Inv(Fork(p, parent, s)) && id in Fork(p, parent, s).chains && TailNamed(Fork(p, parent, s), id)
  {
    ForkKeepsInv(p, parent, s);
    ForkTreeOk(p, parent, s);
    ForkContinues(p, parent, s, id);
    assert ChainOk(p, id);
    SameTailNamed(p, Fork(p, parent, s), id);
  }

  lemma WriteTailNamed(p: Pool, id: Id)
    requires Inv(p) && p.chains[p.current].tail < p.chains[p.current].head
    requires id in p.chains && Sound(p, id) && TailNamed(p, id)
    ensures p.chains[p.current].tail + 1 in p.chains[p.current].blocks
    ensures TreeOk(Write(p)) && TailNamed(Write(p), id)
  {
    WriteIsRegrown(p);
    WriteContinues(p, id);
    assert ChainOk(p, id);
    if id == p.current {
      OwnOrParent(Write(p), id, |p.disk|);
    } else {
      SameTailNamed(p, Write(p), id);
    }
  }

  /** Every step keeps the tail hash of an undisturbed chain empty or true. */
  lemma StepKeepsTailNamed(p: Pool, st: Step, id: Id)
    requires Inv(p) && Enabled(p, st) && Fitting(p, st)
    requires id in p.chains && Sound(p, id) && Undisturbed(p, st, id) && TailNamed(p, id)
    ensures Acyclic(Apply(p, st)) && id in Apply(p, st).chains && TailNamed(Apply(p, st), id)
  {
    StepContinues(p, st, id);
    match st
    case DoInsert(c, w) => InsertTailNamed(p, c, w, id);
    case DoFork(parent, s) => ForkTailNamed(p, parent, s, id);
    case DoWrite => WriteTailNamed(p, id);
    case DoRollback(n) => PopToTailNamed(p, n, id);
    case DoDirect(b) => DirectTailNamed(p, b, id);
    case DoSwitch(to) =>
      TreeIsShapely(p);
      if HoldsHead(p, to) { SwitchTailNamed(p, to, id); } else { SwitchMeans(p, to, false); }
  }

  /** New chains start that way: a fork without a tail hash, a directly inserted block's chain
      with the right one. */
  lemma NewChainIsNamed(p: Pool, st: Step, id: Id)
    requires Inv(p) && Enabled(p, st) && id !in p.chains && id in Apply(p, st).chains
    ensures Inv(Apply(p, st)) && TailNamed(Apply(p, st), id)
  {
    match st
    case DoInsert(c, w) => assert false;
    case DoFork(parent, s) => ForkKeepsInv(p, parent, s);
    case DoWrite => assert false;
    case DoRollback(n) => assert false;
    case DoDirect(b) => DirectKeepsInv(p, b); OwnOrParent(Direct(p, b), id, b.height);
    case DoSwitch(to) =>
      if HoldsHead(p, to) { RerootFrame(p, to, false); }
      assert false;
  }

  /** Hence current's tail is the disk's head in height always, and in hash exactly when it has
      a tail hash at all. */
  lemma CurrentTailHash(p: Pool)
    requires Inv(p) && |p.disk| > 0 && TailNamed(p, p.current) && DiskHead(p.disk).hash != ""
    ensures p.chains[p.current].tail == DiskHead(p.disk).height
    ensures p.chains[p.current].tailHash == DiskHead(p.disk).hash <==> p.chains[p.current].tailHash != ""
  {
    assert ChainOk(p, p.current);
    OwnOrParent(p, p.current, |p.disk| - 1);
  }

  lemma OneHop(p: Pool, to: Id)
    requires TreeOk(p) && to in p.chains && p.chains[to].refer.Chain?
    requires p.chains[to].refer.id in p.chains && p.chains[p.chains[to].refer.id].refer.Disk?
    requires p.chains[to].tail == p.chains[p.chains[to].refer.id].tail
    ensures HopsFit(p, to, false)
    ensures Reroot(p, to, false).Some?
    ensures to in Reroot(p, to, false).value.chains
    ensures Reroot(p, to, false).value.chains[to] == p.chains[to].(refer := Disk)
  {
    var from := p.chains[to].refer.id;
    assert Path(p, to) == [to, from];
    RerootSteps(p, to, false);
    var q := Swap(p, from, to, false);
    assert q.chains[to] == p.chains[to].(refer := Disk);
  }

  lemma SwitchReachesHead(q: Pool, to: Id, t: int)
    requires Inv(q) && |q.disk| > 0 && t == |q.disk| - 1 && to in q.chains
    requires q.chains[to].refer == Chain(q.current) && q.chains[to].tail == t
    ensures At(q, to, DiskHead(q.disk).height) == Some(DiskHead(q.disk))
  {
    assert ChainOk(q, to) && ChainOk(q, q.current);
    OwnOrParent(q, to, t);
    OwnOrParent(q, q.current, t);
  }

  /** Switching to a chain that leaves current at its tail moves no block and no tail hash. */
  lemma LevelSwitch(q: Pool, to: Id)
    requires Inv(q) && |q.disk| > 0 && to in q.chains
    requires q.chains[to].refer == Chain(q.current) && q.chains[to].tail == q.chains[q.current].tail
    ensures HopsFit(q, to, false) && RootedAtHead(q, to) && Switch(q, to, false).Some?
    ensures Switch(q, to, false).value.current == to && to in Switch(q, to, false).value.chains
    ensures Switch(q, to, false).value.chains[to].tailHash == q.chains[to].tailHash
  {
    OneHop(q, to);
    SwitchReachesHead(q, to, q.chains[to].tail);
  }

  /** So switching to a fresh fork at current's tail leaves current without a tail hash. */
  lemma SwitchedForkHasNoTailHash(p: Pool, s: Snippet)
    requires Inv(p) && Forks(p, p.current, s) && s.tail == p.chains[p.current].tail && |p.disk| > 0
    ensures Inv(Fork(p, p.current, s))
    ensures var q, sw := Fork(p, p.current, s), DoSwitch(p.lastId + 1); Enabled(q, sw) && Safe(q, sw)
    ensures var z := Switch(Fork(p, p.current, s), p.lastId + 1, false);
            && z.Some? && z.value.current == p.lastId + 1 && z.value.current in z.value.chains
            && z.value.chains[z.value.current].tailHash == ""
  {
    ForkKeepsInv(p, p.current, s);
    ForkTreeOk(p, p.current, s);
    LevelSwitch(Fork(p, p.current, s), p.lastId + 1);
  }
}
