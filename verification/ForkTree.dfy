/** The pool's tree of forked chains over the disk chain, as a value.

    A chain owns the blocks in (tail, head] and refers, below them, to another chain or to
    the disk. `Get` is the lookup that walks the references. What a chain *means* is the
    sequence of blocks `Get` returns for heights up to its own head. */
module ForkTree {
  import opened Blocks

  type Id = nat

  datatype Ref = Disk | Chain(id: Id)

  datatype Forked = Forked(
    tail: int, tailHash: Hash, head: int, headHash: Hash, blocks: map<int, Block>, refer: Ref)

  /** `lastId` is the counter new chain ids are drawn from. */
  datatype Pool = Pool(disk: seq<Block>, chains: map<Id, Forked>, current: Id, lastId: Id)

  // ---------------------------------------------------------------- references

  predicate InPool(p: Pool, r: Ref) {
    r.Chain? ==> r.id in p.chains
  }

  ghost predicate Descends(p: Pool, rank: map<Id, nat>, i: Id)
    requires rank.Keys == p.chains.Keys && i in p.chains
  {
    InPool(p, p.chains[i].refer) && (p.chains[i].refer.Chain? ==> rank[p.chains[i].refer.id] < rank[i])
  }

  ghost predicate Ranked(p: Pool, rank: map<Id, nat>) {
    && rank.Keys == p.chains.Keys
    && forall i {:trigger Descends(p, rank, i)} | i in p.chains :: Descends(p, rank, i)
  }

  /** Every reference stays inside the pool and following references ends at the disk. */
  ghost predicate Acyclic(p: Pool) {
    exists rank :: Ranked(p, rank)
  }

  ghost function RankOf(p: Pool): (rank: map<Id, nat>)
    requires Acyclic(p)
    ensures Ranked(p, rank)
  {
    var rank :| Ranked(p, rank);
    rank
  }

  ghost function Rank(p: Pool, r: Ref): nat
    requires Acyclic(p) && InPool(p, r)
  {
    if r.Disk? then 0 else RankOf(p)[r.id] + 1
  }

  lemma ParentIsBelow(p: Pool, id: Id)
    requires Acyclic(p) && id in p.chains
    ensures InPool(p, p.chains[id].refer) && Rank(p, p.chains[id].refer) < Rank(p, Chain(id))
  {
    assert Descends(p, RankOf(p), id);
  }

  /** The chain at which following references from `id` reaches the disk. */
  function Root(p: Pool, id: Id): (root: Id)
    requires Acyclic(p) && id in p.chains
    ensures root in p.chains && p.chains[root].refer.Disk?
    decreases Rank(p, Chain(id))
  {
    ParentIsBelow(p, id);
    if p.chains[id].refer.Disk? then id else Root(p, p.chains[id].refer.id)
  }

  // ---------------------------------------------------------------- lookups

  function DiskBlock(disk: seq<Block>, h: int): Option<Block> {
    if 0 <= h < |disk| then Some(disk[h]) else None
  }

  function DiskHead(disk: seq<Block>): Block {
    if disk == [] then NO_BLOCK else disk[|disk| - 1]
  }

  /** The block at height `h` seen from `r`: the chain's own block, else what it refers to. */
  function Get(p: Pool, r: Ref, h: int): Option<Block>
    requires Acyclic(p) && InPool(p, r)
    decreases Rank(p, r)
  {
    if r.Disk? then DiskBlock(p.disk, h)
    else if h in p.chains[r.id].blocks then Some(p.chains[r.id].blocks[h])
    else
      ParentIsBelow(p, r.id);
      Get(p, p.chains[r.id].refer, h)
  }

  function At(p: Pool, id: Id, h: int): Option<Block>
    requires Acyclic(p) && id in p.chains
  {
    Get(p, Chain(id), h)
  }

  /** Chain `id` means the same sequence of blocks in `p` and in `q`. */
  ghost predicate SameLogical(p: Pool, q: Pool, id: Id)
    requires Acyclic(p) && Acyclic(q) && id in p.chains && id in q.chains
  {
    && p.chains[id].head == q.chains[id].head
    && forall h | h <= p.chains[id].head :: At(p, id, h) == At(q, id, h)
  }

  ghost predicate AllSameLogical(p: Pool, q: Pool)
    requires Acyclic(p) && Acyclic(q)
  {
    && p.chains.Keys == q.chains.Keys
    && forall id | id in p.chains :: SameLogical(p, q, id)
  }

  // ---------------------------------------------------------------- well-formedness

  ghost predicate LinkAt(blocks: map<int, Block>, h: int) {
    h in blocks && h - 1 in blocks ==> blocks[h].preHash == blocks[h - 1].hash
  }

  /** Blocks are stored under their heights and each names the one below by hash. */
  ghost predicate Linked(blocks: map<int, Block>) {
    && (forall h | h in blocks :: blocks[h].height == h)
    && (forall h {:trigger LinkAt(blocks, h)} :: LinkAt(blocks, h))
  }

  /** The chain's own blocks fill exactly (tail, head] and are hash-linked. */
  ghost predicate Filled(c: Forked) {
    && -1 <= c.tail <= c.head
    && (forall h :: h in c.blocks <==> c.tail < h <= c.head)
    && Linked(c.blocks)
    && (c.tail < c.head ==> c.headHash == c.blocks[c.head].hash)
    && (c.tail == c.head ==> c.headHash == c.tailHash)
  }

  /** Chain `id` is filled and leaves its parent at a height the parent has. */
  ghost predicate ChainOk(p: Pool, id: Id)
    requires id in p.chains
  {
    var c := p.chains[id];
    && Filled(c)
    && id <= p.lastId
    && (c.refer.Chain? ==> c.refer.id in p.chains && c.tail <= p.chains[c.refer.id].head)
  }

  ghost predicate TreeOk(p: Pool) {
    && Acyclic(p)
    && forall id {:trigger ChainOk(p, id)} | id in p.chains :: ChainOk(p, id)
  }

  /** What the pointers and bounds of chain `id` say, whatever its blocks are. */
  ghost predicate ShapeOk(p: Pool, id: Id)
    requires id in p.chains
  {
    var c := p.chains[id];
    && -1 <= c.tail <= c.head
    && (forall h :: h in c.blocks <==> c.tail < h <= c.head)
    && (c.refer.Chain? ==> c.refer.id in p.chains && c.tail <= p.chains[c.refer.id].head)
  }

  ghost predicate Shapely(p: Pool) {
    && Acyclic(p)
    && forall id {:trigger ShapeOk(p, id)} | id in p.chains :: ShapeOk(p, id)
  }

  lemma TreeIsShapely(p: Pool)
    requires TreeOk(p)
    ensures Shapely(p)
  {
    forall id | id in p.chains
      ensures ShapeOk(p, id)
    {
      assert ChainOk(p, id);
    }
  }

  ghost predicate DiskLinkAt(disk: seq<Block>, i: int) {
    0 < i < |disk| ==> disk[i].preHash == disk[i - 1].hash
  }

  ghost predicate DiskOk(disk: seq<Block>) {
    && (forall i | 0 <= i < |disk| :: disk[i].height == i)
    && (forall i {:trigger DiskLinkAt(disk, i)} :: DiskLinkAt(disk, i))
  }

  /** The hash below height `h + 1` on chain `id`; the empty hash below the first block. */
  function HashAt(p: Pool, id: Id, h: int): Hash
    requires Acyclic(p) && id in p.chains
  {
    var b := At(p, id, h);
    if b.Some? then b.value.hash else ""
  }

  ghost predicate SoundAt(p: Pool, id: Id, h: int)
    requires Acyclic(p) && id in p.chains
  {
    At(p, id, h).Some? && At(p, id, h).value.preHash == HashAt(p, id, h - 1)
  }

  /** Chain `id` has a block at every height up to its head, each linked to the one below. */
  ghost predicate Sound(p: Pool, id: Id)
    requires Acyclic(p) && id in p.chains
  {
    && (forall h | 0 <= h <= p.chains[id].head :: At(p, id, h).Some? && At(p, id, h).value.height == h)
    && (forall h {:trigger SoundAt(p, id, h)} | 0 < h <= p.chains[id].head :: SoundAt(p, id, h))
    && p.chains[id].headHash == HashAt(p, id, p.chains[id].head)
  }

  ghost predicate TreeSound(p: Pool, root: Id)
    requires Acyclic(p)
  {
    forall id {:trigger Sound(p, id)} | id in p.chains && Root(p, id) == root :: Sound(p, id)
  }

  /** What the pool keeps at every step: see PoolMachine. */
  ghost predicate Inv(p: Pool) {
    && TreeOk(p)
    && DiskOk(p.disk)
    && p.current in p.chains
    && p.chains[p.current].refer.Disk?
    && p.chains[p.current].tail == |p.disk| - 1
    && TreeSound(p, p.current)
  }

  // ---------------------------------------------------------------- facts about lookups

  /** The lowest tail met on the way from `id` to the disk. */
  function LowTail(p: Pool, id: Id): int
    requires Acyclic(p) && id in p.chains
    decreases Rank(p, Chain(id))
  {
    var c := p.chains[id];
    ParentIsBelow(p, id);
    if c.refer.Disk? then c.tail else Min(c.tail, LowTail(p, c.refer.id))
  }

  /** Up to its head a chain reads the disk exactly at the heights at or below its lowest
      tail; above that every height is held by some chain in memory. */
  lemma {:induction false} LookupSplits(p: Pool, id: Id, h: int)
    requires TreeOk(p) && id in p.chains && h <= p.chains[id].head
    ensures h <= LowTail(p, id) ==> At(p, id, h) == DiskBlock(p.disk, h)
    ensures LowTail(p, id) < h ==>
              exists holder :: holder in p.chains && h in p.chains[holder].blocks
                               && At(p, id, h) == Some(p.chains[holder].blocks[h])
    ensures LowTail(p, id) < h ==> At(p, id, h).Some? && At(p, id, h).value.height == h
    decreases Rank(p, Chain(id))
  {
    var c := p.chains[id];
    ParentIsBelow(p, id);
    assert ChainOk(p, id);
    if c.refer.Chain? && h <= c.tail {
      LookupSplits(p, c.refer.id, h);
    } else if h <= c.tail {
      assert Get(p, c.refer, h) == DiskBlock(p.disk, h);
    }
  }

  /** Blocks are found under their own heights. */
  lemma {:induction false} FoundAtHeight(p: Pool, r: Ref, h: int)
    requires TreeOk(p) && DiskOk(p.disk) && InPool(p, r) && Get(p, r, h).Some?
    ensures Get(p, r, h).value.height == h
    decreases Rank(p, r)
  {
    if r.Chain? {
      ParentIsBelow(p, r.id);
      assert ChainOk(p, r.id);
      if h !in p.chains[r.id].blocks { FoundAtHeight(p, p.chains[r.id].refer, h); }
    }
  }

  lemma {:induction false} LowTailIsLow(p: Pool, id: Id)
    requires TreeOk(p) && id in p.chains
    ensures -1 <= LowTail(p, id) <= p.chains[id].tail
    ensures LowTail(p, id) <= p.chains[Root(p, id)].tail
    decreases Rank(p, Chain(id))
  {
    ParentIsBelow(p, id);
    assert ChainOk(p, id);
    if p.chains[id].refer.Chain? { LowTailIsLow(p, p.chains[id].refer.id); }
  }

  /** Every block the pool holds, on disk or in memory. */
  ghost function Held(p: Pool): set<Block> {
    (set i | 0 <= i < |p.disk| :: p.disk[i])
    + (set id, h | id in p.chains && h in p.chains[id].blocks :: p.chains[id].blocks[h])
  }

  lemma {:induction false} LookupIsHeld(p: Pool, r: Ref, h: int)
    requires Acyclic(p) && InPool(p, r)
    ensures Get(p, r, h).Some? ==> Get(p, r, h).value in Held(p)
    decreases Rank(p, r)
  {
    if r.Chain? && h !in p.chains[r.id].blocks {
      ParentIsBelow(p, r.id);
      LookupIsHeld(p, p.chains[r.id].refer, h);
    }
  }

  /** Two sound chains that agree at a height agree at every height below it: a block's hash
      fixes its whole history. */
  lemma {:induction false} AgreeBelow(p: Pool, a: Id, b: Id, top: int, h: int)
    requires Acyclic(p) && a in p.chains && b in p.chains && Sound(p, a) && Sound(p, b)
    requires HashIdentifies(Held(p))
    requires 0 <= h <= top <= p.chains[a].head && top <= p.chains[b].head
    requires HashAt(p, a, top) == HashAt(p, b, top)
    ensures At(p, a, h) == At(p, b, h)
    decreases top - h
  {
    LookupIsHeld(p, Chain(a), top);
    LookupIsHeld(p, Chain(b), top);
    assert At(p, a, top) == At(p, b, top);
    if h < top {
      assert SoundAt(p, a, top) && SoundAt(p, b, top);
      assert HashAt(p, a, top - 1) == At(p, a, top).value.preHash;
      AgreeBelow(p, a, b, top - 1, h);
    }
  }

  // ---------------------------------------------------------------- framing

  /** A rank that works for two pools lets a lookup be carried over: same chains below a
      rank, same disk, same lookups. */
  lemma {:induction false} SameBelow(p: Pool, q: Pool, rank: map<Id, nat>, bound: nat, r: Ref, h: int)
    requires Acyclic(p) && Acyclic(q) && Ranked(p, rank)
    requires p.disk == q.disk && p.chains.Keys == q.chains.Keys
    requires forall i | i in p.chains && rank[i] < bound :: q.chains[i] == p.chains[i]
    requires InPool(p, r) && (r.Chain? ==> rank[r.id] < bound)
    ensures InPool(q, r) && Get(p, r, h) == Get(q, r, h)
    decreases Rank(p, r)
  {
    if r.Chain? {
      ParentIsBelow(p, r.id);
      assert Descends(p, rank, r.id);
      SameBelow(p, q, rank, bound, p.chains[r.id].refer, h);
    }
  }
}
