/** Making another chain the one that rests on the disk: `modifyRefer` swaps a chain with its
    parent, `currentModifyToChain` repeats the swap until the chain refers to the disk.

    As written the swap moves at most one block from parent to child, because its loop guard
    re-reads the parent's tail after the body has raised it. The flag `once` selects the same
    loop with that bound read once; everything said for `once == false` is about the code. */
module Rerooting {
  import opened Blocks
  import opened ForkTree

  // ---------------------------------------------------------------- one swap

  predicate CanShift(f: Forked, t: Forked, low: int) {
    low < t.tail ==> t.tail in f.blocks && low + 1 in f.blocks
  }

  /** The parent after giving away its blocks in (low, t.tail]. */
  function Gave(f: Forked, t: Forked, low: int, to: Id): Forked
    requires CanShift(f, t, low)
  {
    if low >= t.tail then f.(refer := Chain(to))
    else f.(tail := t.tail, tailHash := f.blocks[t.tail].hash, refer := Chain(to),
            blocks := map h | h in f.blocks && !(low < h <= t.tail) :: f.blocks[h])
  }

  /** The child after taking them. */
  function Took(f: Forked, t: Forked, low: int): Forked
    requires CanShift(f, t, low)
  {
    if low >= t.tail then t.(refer := f.refer)
    else t.(tail := low, tailHash := f.blocks[low + 1].preHash, refer := f.refer,
            blocks := t.blocks + map h | h in f.blocks && low < h <= t.tail :: f.blocks[h])
  }

  /** `to` takes the blocks in (low, to.tail] from `from`, and the two swap places. */
  function Shift(p: Pool, from: Id, to: Id, low: int): Pool
    requires from in p.chains && to in p.chains && CanShift(p.chains[from], p.chains[to], low)
  {
    p.(chains := p.chains[from := Gave(p.chains[from], p.chains[to], low, to)]
                         [to := Took(p.chains[from], p.chains[to], low)])
  }

  /** The lower bound of the blocks that move. As written the guard re-reads `from.tail`, which
      the first turn of the loop has set to `to.tail`; read once it would reach `from.tail`. */
  function Low(f: Forked, t: Forked, once: bool): int {
    if t.tail <= f.tail then t.tail else if once then f.tail else t.tail - 1
  }

  /** Otherwise nil is dereferenced: the parent lacks a block that is to move. */
  predicate SwapRuns(p: Pool, from: Id, to: Id, once: bool)
    requires from in p.chains && to in p.chains
  {
    CanShift(p.chains[from], p.chains[to], Low(p.chains[from], p.chains[to], once))
  }

  /** `modifyRefer`: with `once` false, as written. */
  function Swap(p: Pool, from: Id, to: Id, once: bool): Pool
    requires from in p.chains && to in p.chains && SwapRuns(p, from, to, once)
  {
    Shift(p, from, to, Low(p.chains[from], p.chains[to], once))
  }

  /** The swap that moves every block above the parent's tail. */
  function HopAll(p: Pool, from: Id, to: Id): Pool
    requires from in p.chains && to in p.chains && p.chains[to].refer == Chain(from)
    requires ShapeOk(p, from) && ShapeOk(p, to)
  {
    Shift(p, from, to, p.chains[from].tail)
  }

  /** The swap as written moves everything exactly when at most one block has to move. */
  lemma SwapMovesAllIff(p: Pool, from: Id, to: Id, once: bool)
    requires from in p.chains && to in p.chains && p.chains[to].refer == Chain(from)
    requires ShapeOk(p, from) && ShapeOk(p, to)
    ensures SwapRuns(p, from, to, once)
    ensures Swap(p, from, to, once) == HopAll(p, from, to)
       <==> once || p.chains[to].tail <= p.chains[from].tail + 1
  {
    assert Swap(p, from, to, once).chains[to].tail == HopAll(p, from, to).chains[to].tail
           || (!once && p.chains[to].tail > p.chains[from].tail + 1);
  }

  /** The swap keeps the references acyclic, whatever the tails. */
  lemma ShiftRanked(p: Pool, from: Id, to: Id, low: int, rank: map<Id, nat>) returns (rank': map<Id, nat>)
    requires from in p.chains && to in p.chains && CanShift(p.chains[from], p.chains[to], low)
    requires Ranked(p, rank) && p.chains[to].refer == Chain(from)
    ensures Ranked(Shift(p, from, to, low), rank')
    ensures Acyclic(Shift(p, from, to, low))
  {
    rank' := map i | i in p.chains :: if i == to then 2 * rank[from] else 2 * rank[i] + 1;
    var q := Shift(p, from, to, low);
    assert Descends(p, rank, to) && Descends(p, rank, from);
    forall i | i in q.chains
      ensures Descends(q, rank', i)
    {
      assert Descends(p, rank, i);
    }
  }

  /** What a swap does to the lookups of the two chains and of everything below them. */
  lemma ShiftLookups(p: Pool, from: Id, to: Id, low: int, h: int)
    requires Acyclic(p) && from in p.chains && to in p.chains && CanShift(p.chains[from], p.chains[to], low)
    requires p.chains[to].refer == Chain(from)
    ensures var q := Shift(p, from, to, low);
            && Acyclic(q) && from != to
            && InPool(p, p.chains[from].refer) && InPool(q, p.chains[from].refer)
            && Get(q, p.chains[from].refer, h) == Get(p, p.chains[from].refer, h)
            && At(q, to, h) == (if h in q.chains[to].blocks then Some(q.chains[to].blocks[h])
                                else Get(p, p.chains[from].refer, h))
            && At(q, from, h) == (if h in q.chains[from].blocks then Some(q.chains[from].blocks[h])
                                  else At(q, to, h))
  {
    var rank := RankOf(p);
    var q := Shift(p, from, to, low);
    var _ := ShiftRanked(p, from, to, low, rank);
    assert Descends(p, rank, to) && Descends(p, rank, from);
    SameBelow(p, q, rank, rank[from], p.chains[from].refer, h);
  }

  /** Own blocks first, else the parent. */
  lemma OwnOrParent(p: Pool, id: Id, h: int)
    requires Acyclic(p) && id in p.chains
    ensures InPool(p, p.chains[id].refer)
    ensures At(p, id, h) == if h in p.chains[id].blocks then Some(p.chains[id].blocks[h])
                            else Get(p, p.chains[id].refer, h)
  {
    ParentIsBelow(p, id);
  }

  /** `t` sits on `f`: its first block, or its head when it is empty, names f's block below. */
  ghost predicate SitsOn(f: Forked, t: Forked) {
    && f.tail <= t.tail <= f.head
    && (f.tail < t.tail == t.head ==> t.tail in f.blocks && t.headHash == f.blocks[t.tail].hash)
    && (f.tail < t.tail < t.head ==>
          t.tail in f.blocks && t.tail + 1 in t.blocks && t.blocks[t.tail + 1].preHash == f.blocks[t.tail].hash)
  }

  lemma SoundSitsOn(p: Pool, from: Id, to: Id)
    requires TreeOk(p) && from in p.chains && to in p.chains && p.chains[to].refer == Chain(from)
    requires p.chains[from].tail <= p.chains[to].tail && Sound(p, to)
    ensures SitsOn(p.chains[from], p.chains[to])
  {
    var f, t := p.chains[from], p.chains[to];
    assert ChainOk(p, from) && ChainOk(p, to);
    OwnOrParent(p, to, t.tail);
    OwnOrParent(p, from, t.tail);
    if f.tail < t.tail {
      assert At(p, to, t.tail) == At(p, from, t.tail) == Some(f.blocks[t.tail]);
      if t.tail < t.head {
        OwnOrParent(p, to, t.tail + 1);
        assert SoundAt(p, to, t.tail + 1);
      }
    }
  }

  /** The two chains after a full swap: `to` holds what `from` held above its old tail. */
  lemma FullShiftFills(f: Forked, t: Forked, to: Id)
    requires Filled(f) && Filled(t) && SitsOn(f, t)
    ensures CanShift(f, t, f.tail)
    ensures Filled(Gave(f, t, f.tail, to)) && Gave(f, t, f.tail, to).tail == t.tail
    ensures Filled(Took(f, t, f.tail)) && Took(f, t, f.tail).tail == f.tail
  {
    var f', t' := Gave(f, t, f.tail, to), Took(f, t, f.tail);
    if f.tail < t.tail {
      assert forall h :: h in f'.blocks <==> t.tail < h <= f.head;
      assert forall h :: h in t'.blocks <==> f.tail < h <= t.head;
      forall h ensures LinkAt(f'.blocks, h) { assert LinkAt(f.blocks, h); }
      forall h ensures LinkAt(t'.blocks, h) { assert LinkAt(f.blocks, h) && LinkAt(t.blocks, h); }
    }
  }

  lemma HopAllEnds(p: Pool, from: Id, to: Id, h: int)
    requires Shapely(p) && from in p.chains && to in p.chains && p.chains[to].refer == Chain(from)
    requires p.chains[from].tail <= p.chains[to].tail
    ensures Acyclic(HopAll(p, from, to)) && from != to
    ensures h <= p.chains[to].head ==> At(HopAll(p, from, to), to, h) == At(p, to, h)
    ensures h <= p.chains[from].head ==> At(HopAll(p, from, to), from, h) == At(p, from, h)
  {
    var f, t := p.chains[from], p.chains[to];
    ParentIsBelow(p, to);
    assert ShapeOk(p, from) && ShapeOk(p, to);
    ShiftLookups(p, from, to, f.tail, h);
    OwnOrParent(p, to, h);
    OwnOrParent(p, from, h);
  }

  /** Once every block above the parent's tail moves, every chain of the pool keeps its
      meaning. */
  lemma {:induction false} HopAllKeeps(p: Pool, from: Id, to: Id, rank: map<Id, nat>, id: Id, h: int)
    requires Shapely(p) && from in p.chains && to in p.chains && p.chains[to].refer == Chain(from)
    requires p.chains[from].tail <= p.chains[to].tail
    requires Ranked(p, rank)
    requires id in p.chains && h <= p.chains[id].head
    ensures Acyclic(HopAll(p, from, to))
    ensures At(HopAll(p, from, to), id, h) == At(p, id, h)
    decreases rank[id]
  {
    HopAllEnds(p, from, to, h);
    if id != from && id != to {
      var q := HopAll(p, from, to);
      assert q.chains[id] == p.chains[id];
      OwnOrParent(p, id, h);
      OwnOrParent(q, id, h);
      assert Descends(p, rank, id) && ShapeOk(p, id);
      var r := p.chains[id].refer;
      if r.Chain? && h <= p.chains[id].tail {
        HopAllKeeps(p, from, to, rank, r.id, h);
      }
    }
  }

  lemma HopAllAcyclic(p: Pool, from: Id, to: Id)
    requires Shapely(p) && from in p.chains && to in p.chains && p.chains[to].refer == Chain(from)
    ensures HopAll.requires(p, from, to) && Acyclic(HopAll(p, from, to)) && from != to
  {
    assert Descends(p, RankOf(p), to);
    assert ShapeOk(p, from) && ShapeOk(p, to);
    var _ := ShiftRanked(p, from, to, p.chains[from].tail, RankOf(p));
  }

  lemma HopAllTreeOk(p: Pool, from: Id, to: Id)
    requires TreeOk(p) && from in p.chains && to in p.chains && p.chains[to].refer == Chain(from)
    requires SitsOn(p.chains[from], p.chains[to])
    ensures HopAll.requires(p, from, to) && TreeOk(HopAll(p, from, to))
  {
    TreeIsShapely(p);
    HopAllAcyclic(p, from, to);
    assert ChainOk(p, from) && ChainOk(p, to);
    var q, f, t := HopAll(p, from, to), p.chains[from], p.chains[to];
    FullShiftFills(f, t, to);
    assert q.chains.Keys == p.chains.Keys;
    forall id | id in q.chains
      ensures ChainOk(q, id)
    {
      assert ChainOk(p, id);
      if id != from && id != to { assert q.chains[id] == p.chains[id]; }
    }
  }

  lemma HopAllTails(p: Pool, from: Id, to: Id)
    requires from in p.chains && to in p.chains && from != to && p.chains[to].refer == Chain(from)
    requires ShapeOk(p, from) && ShapeOk(p, to) && p.chains[from].tail <= p.chains[to].tail
    ensures var q := HopAll(p, from, to);
            && q.chains.Keys == p.chains.Keys
            && q.chains[to].tail == p.chains[from].tail && q.chains[to].refer == p.chains[from].refer
            && (forall i | i in p.chains :: q.chains[i].headHash == p.chains[i].headHash)
  {
  }

  lemma HopAllKeepsAll(p: Pool, from: Id, to: Id)
    requires Shapely(p) && from in p.chains && to in p.chains && p.chains[to].refer == Chain(from)
    requires p.chains[from].tail <= p.chains[to].tail
    ensures Acyclic(HopAll(p, from, to))
    ensures AllSameLogical(p, HopAll(p, from, to))
  {
    HopAllAcyclic(p, from, to);
    var q, rank := HopAll(p, from, to), RankOf(p);
    assert q.chains.Keys == p.chains.Keys;
    forall id | id in p.chains
      ensures SameLogical(p, q, id)
    {
      forall h | h <= p.chains[id].head
        ensures At(p, id, h) == At(q, id, h)
      {
        HopAllKeeps(p, from, to, rank, id, h);
      }
    }
  }

  // ---------------------------------------------------------------- the whole walk

  /** The chains met from `id` down to the disk, `id` first. */
  function Path(p: Pool, id: Id): (path: seq<Id>)
    requires Acyclic(p) && id in p.chains
    ensures |path| > 0 && path[0] == id && forall i | i in path :: i in p.chains
    decreases Rank(p, Chain(id))
  {
    ParentIsBelow(p, id);
    if p.chains[id].refer.Disk? then [id] else [id] + Path(p, p.chains[id].refer.id)
  }

  lemma {:induction false} PathBelow(p: Pool, q: Pool, rank: map<Id, nat>, bound: nat, id: Id)
    requires Acyclic(p) && Acyclic(q) && Ranked(p, rank) && p.chains.Keys == q.chains.Keys
    requires forall i | i in p.chains && rank[i] < bound :: q.chains[i] == p.chains[i]
    requires id in p.chains && rank[id] < bound
    ensures Path(q, id) == Path(p, id) && Root(q, id) == Root(p, id)
    ensures forall i | i in Path(p, id) :: i in p.chains && rank[i] <= rank[id]
    decreases rank[id]
  {
    ParentIsBelow(p, id);
    assert Descends(p, rank, id);
    if p.chains[id].refer.Chain? { PathBelow(p, q, rank, bound, p.chains[id].refer.id); }
  }

  /** After a swap the child skips its old parent on the way down. */
  lemma ShiftPath(p: Pool, from: Id, to: Id, low: int)
    requires Acyclic(p) && from in p.chains && to in p.chains && CanShift(p.chains[from], p.chains[to], low)
    requires p.chains[to].refer == Chain(from)
    ensures var q := Shift(p, from, to, low);
            && Acyclic(q)
            && Path(q, to) == [to] + Path(p, from)[1..]
            && Path(p, to) == [to] + Path(p, from)
            && (forall i | i in Path(p, from)[1..] :: i in q.chains && q.chains[i] == p.chains[i])
  {
    var rank, q := RankOf(p), Shift(p, from, to, low);
    var _ := ShiftRanked(p, from, to, low, rank);
    assert Descends(p, rank, to) && Descends(p, rank, from);
    var r := p.chains[from].refer;
    if r.Chain? {
      PathBelow(p, q, rank, rank[from], r.id);
      assert Path(p, from)[1..] == Path(p, r.id);
    }
  }

  lemma {:induction false} ShiftRoot(p: Pool, from: Id, to: Id, low: int, rank: map<Id, nat>, id: Id)
    requires Acyclic(p) && from in p.chains && to in p.chains && CanShift(p.chains[from], p.chains[to], low)
    requires p.chains[to].refer == Chain(from) && Ranked(p, rank) && id in p.chains
    ensures Acyclic(Shift(p, from, to, low))
    ensures Root(Shift(p, from, to, low), id) == if Root(p, id) == from then to else Root(p, id)
    decreases rank[id]
  {
    var q := Shift(p, from, to, low);
    var _ := ShiftRanked(p, from, to, low, rank);
    assert Descends(p, rank, to) && Descends(p, rank, from) && Descends(p, rank, id);
    var r := p.chains[from].refer;
    if r.Chain? { PathBelow(p, q, rank, rank[from], r.id); }
    assert Root(q, to) == if r.Disk? then to else Root(p, r.id);
    if id != from && id != to && p.chains[id].refer.Chain? {
      ShiftRoot(p, from, to, low, rank, p.chains[id].refer.id);
    }
  }

  /** The loop of `currentModifyToChain`; None when a swap dereferences nil. */
  function Reroot(p: Pool, to: Id, once: bool): Option<Pool>
    requires Acyclic(p) && to in p.chains
    decreases |Path(p, to)|
  {
    var r := p.chains[to].refer;
    ParentIsBelow(p, to);
    if r.Disk? then Some(p)
    else if !SwapRuns(p, r.id, to, once) then None
    else
      ShiftPath(p, r.id, to, Low(p.chains[r.id], p.chains[to], once));
      Reroot(Swap(p, r.id, to, once), to, once)
  }

  /** No tail on the path rises going down, and as written none drops by more than one. */
  ghost predicate HopsFit(p: Pool, to: Id, once: bool)
    requires Acyclic(p) && to in p.chains
  {
    var path := Path(p, to);
    forall k {:trigger FitsAt(p, path, k, once)} | 0 <= k < |path| - 1 :: FitsAt(p, path, k, once)
  }

  ghost predicate FitsAt(p: Pool, path: seq<Id>, k: nat, once: bool)
    requires k < |path| - 1 && forall i | i in path :: i in p.chains
  {
    && p.chains[path[k + 1]].tail <= p.chains[path[k]].tail
    && (once || p.chains[path[k]].tail <= p.chains[path[k + 1]].tail + 1)
  }

  lemma SameLogicalKeepsSound(p: Pool, q: Pool, id: Id)
    requires Acyclic(p) && Acyclic(q) && id in p.chains && id in q.chains
    requires SameLogical(p, q, id) && q.chains[id].headHash == p.chains[id].headHash && Sound(p, id)
    ensures Sound(q, id)
  {
    forall h | 0 < h <= p.chains[id].head
      ensures SoundAt(q, id, h)
    {
      assert SoundAt(p, id, h) && At(p, id, h) == At(q, id, h) && At(p, id, h - 1) == At(q, id, h - 1);
    }
    assert At(p, id, p.chains[id].head) == At(q, id, p.chains[id].head);
  }

  /** The first hop fits. */
  predicate HopFits(p: Pool, to: Id, once: bool)
    requires to in p.chains && p.chains[to].refer.Chain? && p.chains[to].refer.id in p.chains
  {
    var f, t := p.chains[p.chains[to].refer.id], p.chains[to];
    f.tail <= t.tail && (once || t.tail <= f.tail + 1)
  }

  lemma FittingSwapIsFull(p: Pool, to: Id, once: bool)
    requires Shapely(p) && to in p.chains && p.chains[to].refer.Chain?
    requires p.chains[to].refer.id in p.chains && HopFits(p, to, once)
    ensures var from := p.chains[to].refer.id;
            && ShapeOk(p, from) && ShapeOk(p, to) && SwapRuns(p, from, to, once)
            && Swap(p, from, to, once) == HopAll(p, from, to)
  {
    assert ShapeOk(p, p.chains[to].refer.id) && ShapeOk(p, to);
    SwapMovesAllIff(p, p.chains[to].refer.id, to, once);
  }

  /** After a fitting first swap the walk fits exactly if it did before. */
  lemma SwapKeepsFit(p: Pool, to: Id, once: bool)
    requires Shapely(p) && to in p.chains && p.chains[to].refer.Chain?
    requires p.chains[to].refer.id in p.chains && HopFits(p, to, once)
    ensures var from := p.chains[to].refer.id;
            && SwapRuns(p, from, to, once) && Acyclic(Swap(p, from, to, once))
            && (HopsFit(Swap(p, from, to, once), to, once) <==> HopsFit(p, to, once))
  {
    var from := p.chains[to].refer.id;
    FittingSwapIsFull(p, to, once);
    var q := Shift(p, from, to, p.chains[from].tail);
    ShiftPath(p, from, to, p.chains[from].tail);
    var path, path' := Path(p, to), Path(q, to);
    assert path[0] == to && path[1] == from && path'[0] == to;
    forall k | 0 < k < |path'|
      ensures path'[k] == path[k + 1] && q.chains[path'[k]] == p.chains[path[k + 1]]
    {
      assert path'[k] in Path(p, from)[1..];
    }
    assert forall k | 0 <= k < |path'| :: q.chains[path'[k]].tail == p.chains[path[k + 1]].tail;
    if HopsFit(q, to, once) {
      forall k | 0 <= k < |path| - 1
        ensures FitsAt(p, path, k, once)
      {
        if k > 0 { assert FitsAt(q, path', k - 1, once); }
      }
    }
    if HopsFit(p, to, once) {
      forall k | 0 <= k < |path'| - 1
        ensures FitsAt(q, path', k, once)
      {
        assert FitsAt(p, path, k + 1, once);
      }
    }
  }

  lemma FirstHopFits(p: Pool, to: Id, once: bool)
    requires Shapely(p) && to in p.chains && HopsFit(p, to, once) && p.chains[to].refer.Chain?
    ensures p.chains[to].refer.id in p.chains && HopFits(p, to, once)
  {
    ParentIsBelow(p, to);
    var path := Path(p, to);
    assert path == [to] + Path(p, p.chains[to].refer.id) && path[0] == to;
    assert path[0 + 1] == p.chains[to].refer.id && FitsAt(p, path, 0, once);
  }

  /** What one fitting swap keeps. */
  lemma FittingSwap(p: Pool, to: Id, once: bool)
    requires TreeOk(p) && to in p.chains && Sound(p, to) && p.chains[to].refer.Chain?
    requires p.chains[to].refer.id in p.chains && HopFits(p, to, once)
    ensures var from := p.chains[to].refer.id;
            && SwapRuns(p, from, to, once)
            && var q := Swap(p, from, to, once);
            && TreeOk(q) && AllSameLogical(p, q) && Sound(q, to)
            && q.chains[to].tail == p.chains[from].tail && q.chains[to].refer == p.chains[from].refer
            && (forall i | i in p.chains :: q.chains[i].headHash == p.chains[i].headHash)
  {
    TreeIsShapely(p);
    var from := p.chains[to].refer.id;
    FittingSwapIsFull(p, to, once);
    SoundSitsOn(p, from, to);
    HopAllTreeOk(p, from, to);
    HopAllAcyclic(p, from, to);
    HopAllTails(p, from, to);
    HopAllKeepsAll(p, from, to);
    SameLogicalKeepsSound(p, HopAll(p, from, to), to);
  }

  lemma SameLogicalTrans(p: Pool, q: Pool, z: Pool)
    requires Acyclic(p) && Acyclic(q) && Acyclic(z) && AllSameLogical(p, q) && AllSameLogical(q, z)
    ensures AllSameLogical(p, z)
  {
    forall i | i in p.chains
      ensures SameLogical(p, z, i)
    {
      assert SameLogical(p, q, i) && SameLogical(q, z, i);
    }
  }

  /** One turn of the loop. */
  lemma RerootSteps(p: Pool, to: Id, once: bool)
    requires Acyclic(p) && to in p.chains && p.chains[to].refer.Chain?
    ensures var from := p.chains[to].refer.id;
            && from in p.chains
            && (!SwapRuns(p, from, to, once) ==> Reroot(p, to, once).None?)
            && (SwapRuns(p, from, to, once) ==>
                  && Acyclic(Swap(p, from, to, once))
                  && |Path(Swap(p, from, to, once), to)| < |Path(p, to)|
                  && Reroot(p, to, once) == Reroot(Swap(p, from, to, once), to, once))
  {
    var from := p.chains[to].refer.id;
    ParentIsBelow(p, to);
    if SwapRuns(p, from, to, once) {
      ShiftPath(p, from, to, Low(p.chains[from], p.chains[to], once));
    }
  }

  /** However the blocks move, the loop ends with the target on the disk. */
  lemma {:induction false} RerootFrame(p: Pool, to: Id, once: bool)
    requires Acyclic(p) && to in p.chains && Reroot(p, to, once).Some?
    ensures var q := Reroot(p, to, once).value;
            && Acyclic(q) && q.chains.Keys == p.chains.Keys && q.chains[to].refer.Disk?
            && q.disk == p.disk && q.current == p.current && q.lastId == p.lastId
    decreases |Path(p, to)|
  {
    if p.chains[to].refer.Chain? {
      RerootSteps(p, to, once);
      RerootFrame(Swap(p, p.chains[to].refer.id, to, once), to, once);
    }
  }

  /** The target's whole tree then rests on it, and every other tree is where it was. */
  lemma {:induction false} RerootRoot(p: Pool, to: Id, once: bool, id: Id)
    requires Acyclic(p) && to in p.chains && id in p.chains && Reroot(p, to, once).Some?
    ensures var q := Reroot(p, to, once).value;
            && Acyclic(q) && id in q.chains
            && Root(q, id) == if Root(p, id) == Root(p, to) then to else Root(p, id)
    decreases |Path(p, to)|
  {
    RerootFrame(p, to, once);
    if p.chains[to].refer.Chain? {
      var from := p.chains[to].refer.id;
      RerootSteps(p, to, once);
      var low := Low(p.chains[from], p.chains[to], once);
      var q := Shift(p, from, to, low);
      RerootRoot(q, to, once, id);
      ShiftRoot(p, from, to, low, RankOf(p), id);
      ShiftRoot(p, from, to, low, RankOf(p), to);
      assert Root(p, to) == Root(p, from);
    }
  }

  /** Re-rooting along fitting hops runs to the end and keeps the meaning of every chain of the
      pool; the target's tail ends where the tail of its root was. */
  lemma {:induction false} RerootKeeps(p: Pool, to: Id, once: bool)
    requires TreeOk(p) && to in p.chains && Sound(p, to) && HopsFit(p, to, once)
    ensures Reroot(p, to, once).Some?
    ensures var q := Reroot(p, to, once).value;
            && TreeOk(q) && AllSameLogical(p, q)
            && q.chains[to].tail == p.chains[Root(p, to)].tail
            && (forall i | i in p.chains :: q.chains[i].headHash == p.chains[i].headHash)
    decreases |Path(p, to)|
  {
    TreeIsShapely(p);
    if p.chains[to].refer.Chain? {
      var from := p.chains[to].refer.id;
      FirstHopFits(p, to, once);
      FittingSwap(p, to, once);
      SwapKeepsFit(p, to, once);
      RerootSteps(p, to, once);
      var q := Swap(p, from, to, once);
      RerootKeeps(q, to, once);
      SameLogicalTrans(p, q, Reroot(q, to, once).value);
      SwapRootTail(p, to, once);
    }
  }

  lemma HopAllShapely(p: Pool, from: Id, to: Id)
    requires Shapely(p) && from in p.chains && to in p.chains && p.chains[to].refer == Chain(from)
    requires p.chains[from].tail <= p.chains[to].tail
    ensures HopAll.requires(p, from, to) && Shapely(HopAll(p, from, to))
  {
    HopAllAcyclic(p, from, to);
    var q := HopAll(p, from, to);
    assert ShapeOk(p, from) && ShapeOk(p, to);
    assert ShapeOk(q, from) && ShapeOk(q, to);
    forall id | id in q.chains
      ensures ShapeOk(q, id)
    {
      assert ShapeOk(p, id);
    }
  }

  /** A fitting swap keeps shapes and meanings even where blocks are not linked. */
  lemma FittingSwapShape(p: Pool, to: Id, once: bool)
    requires Shapely(p) && to in p.chains && p.chains[to].refer.Chain?
    requires p.chains[to].refer.id in p.chains && HopFits(p, to, once)
    ensures var from := p.chains[to].refer.id;
            && SwapRuns(p, from, to, once)
            && var q := Swap(p, from, to, once);
            && Shapely(q) && AllSameLogical(p, q)
            && (forall i | i in p.chains :: q.chains[i].headHash == p.chains[i].headHash)
  {
    FittingSwapIsFull(p, to, once);
    HopAllKeepsAll(p, p.chains[to].refer.id, to);
    HopAllShapely(p, p.chains[to].refer.id, to);
  }

  /** Re-rooting along fitting hops keeps every meaning, complete or not. */
  lemma {:induction false} RerootKeepsShape(p: Pool, to: Id, once: bool)
    requires Shapely(p) && to in p.chains && HopsFit(p, to, once)
    ensures Reroot(p, to, once).Some?
    ensures var q := Reroot(p, to, once).value;
            && Shapely(q) && AllSameLogical(p, q)
            && q.chains[to].tail == p.chains[Root(p, to)].tail
            && (forall i | i in p.chains :: q.chains[i].headHash == p.chains[i].headHash)
    decreases |Path(p, to)|
  {
    if p.chains[to].refer.Chain? {
      FirstHopFits(p, to, once);
      FittingSwapShape(p, to, once);
      SwapKeepsFit(p, to, once);
      RerootSteps(p, to, once);
      var q := Swap(p, p.chains[to].refer.id, to, once);
      RerootKeepsShape(q, to, once);
      SameLogicalTrans(p, q, Reroot(q, to, once).value);
      SwapRootTail(p, to, once);
    }
  }

  lemma SwapRootTail(p: Pool, to: Id, once: bool)
    requires Shapely(p) && to in p.chains && p.chains[to].refer.Chain?
    requires p.chains[to].refer.id in p.chains && HopFits(p, to, once)
    ensures var from := p.chains[to].refer.id;
            && SwapRuns(p, from, to, once)
            && var q := Swap(p, from, to, once);
            && Acyclic(q)
            && q.chains[Root(q, to)].tail == p.chains[Root(p, to)].tail
  {
    var from := p.chains[to].refer.id;
    FittingSwapIsFull(p, to, once);
    var q, low := Swap(p, from, to, once), Low(p.chains[from], p.chains[to], once);
    ShiftRoot(p, from, to, low, RankOf(p), to);
    assert Root(p, to) == Root(p, from);
    assert Descends(p, RankOf(p), to);
    if p.chains[from].refer.Chain? {
      var r := p.chains[from].refer.id;
      assert Descends(p, RankOf(p), from);
      PathBelow(p, q, RankOf(p), RankOf(p)[from], r);
      RootIsOnPath(p, r);
      assert Root(p, to) != from && Root(p, to) != to;
    }
  }

  lemma {:induction false} RootIsOnPath(p: Pool, id: Id)
    requires Acyclic(p) && id in p.chains
    ensures Root(p, id) in Path(p, id)
    decreases Rank(p, Chain(id))
  {
    ParentIsBelow(p, id);
    if p.chains[id].refer.Chain? { RootIsOnPath(p, p.chains[id].refer.id); }
  }
}
