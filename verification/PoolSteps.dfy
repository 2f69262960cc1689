/** The pool's operations as functions on its value, and what each does to lookups. */
module PoolSteps {
  import opened Blocks
  import opened ForkTree
  import opened Rerooting

  /** A run of glued blocks not yet attached: (tail, head] with the hash below its first block. */
  datatype Snippet = Snippet(tail: int, tailHash: Hash, head: int, headHash: Hash, blocks: map<int, Block>)

  ghost predicate SnippetOk(s: Snippet) {
    && -1 <= s.tail <= s.head
    && (forall h :: h in s.blocks <==> s.tail < h <= s.head)
    && Linked(s.blocks)
    && (s.tail < s.head ==> s.blocks[s.tail + 1].preHash == s.tailHash)
    && s.headHash == (if s.tail < s.head then s.blocks[s.head].hash else s.tailHash)
  }

  // ---------------------------------------------------------------- operations

  /** `insert`: the block goes on the chain only if it extends the head. */
  function Insert(p: Pool, id: Id, w: Block): Pool
    requires id in p.chains
  {
    var c := p.chains[id];
    if w.height == c.head + 1 && c.headHash == w.preHash then
      p.(chains := p.chains[id := c.(headHash := w.hash, head := w.height, blocks := c.blocks[w.height := w])])
    else p
  }

  /** `forkChain`: a new chain on `parent` holding the snippet. Its tail hash is not copied. */
  function Fork(p: Pool, parent: Id, s: Snippet): Pool {
    var id := p.lastId + 1;
    p.(chains := p.chains[id := Forked(s.tail, "", s.head, s.headHash, s.blocks, Chain(parent))], lastId := id)
  }

  /** `writeToChain` of current's lowest block, when the disk accepts it. */
  function Write(p: Pool): Pool
    requires p.current in p.chains && p.chains[p.current].tail + 1 in p.chains[p.current].blocks
  {
    var c := p.chains[p.current];
    var w := c.blocks[c.tail + 1];
    p.(disk := p.disk + [w],
       chains := p.chains[p.current := c.(tailHash := w.hash, tail := c.tail + 1, blocks := c.blocks - {c.tail + 1})])
  }

  /** The store keeps the block and reports an error: the pool is not told. */
  function Keep(p: Pool, b: Block): Pool {
    p.(disk := p.disk + [b])
  }

  /** One turn of `rollback`: the disk's head goes back under current. */
  function Pop(p: Pool): Pool
    requires p.current in p.chains && |p.disk| > 0
  {
    var c, h := p.chains[p.current], |p.disk| - 1;
    var w := p.disk[h];
    p.(disk := p.disk[..h],
       chains := p.chains[p.current := c.(tailHash := w.preHash, tail := h - 1, blocks := c.blocks[h := w])])
  }

  /** `rollback` to height `n`. */
  function PopTo(p: Pool, n: int): (q: Pool)
    requires p.current in p.chains && -1 <= n
    ensures q.current == p.current && q.chains.Keys == p.chains.Keys && q.lastId == p.lastId
    decreases |p.disk|
  {
    if |p.disk| - 1 <= n then p else PopTo(Pop(p), n)
  }

  /** `insertNotify` after the disk has taken `b` directly: an empty current chain that ends at
      b's parent moves up, otherwise a new empty chain becomes current. */
  function Notify(p: Pool, b: Block): Pool
    requires p.current in p.chains
  {
    var c := p.chains[p.current];
    if c.head == c.tail && c.tailHash == b.preHash && c.headHash == b.preHash then
      p.(chains := p.chains[p.current := c.(tail := b.height, tailHash := b.hash, head := b.height, headHash := b.hash)])
    else
      var id := p.lastId + 1;
      p.(chains := p.chains[id := Forked(b.height, b.hash, b.height, b.hash, map[], Disk)], current := id, lastId := id)
  }

  function Direct(p: Pool, b: Block): Pool
    requires p.current in p.chains
  {
    Notify(Keep(p, b), b)
  }

  /** The check of `currentModifyToChain`: the target holds the block the store answers as its head. */
  predicate Holds(p: Pool, to: Id, head: Block)
    requires Acyclic(p) && to in p.chains
  {
    var w := At(p, to, head.height);
    w.Some? && w.value.hash == head.hash
  }

  /** `currentModifyToChain`, where the store answers `head`: refused unless the target holds it. */
  function SwitchAsked(p: Pool, to: Id, head: Block, once: bool): Option<Pool>
    requires Acyclic(p) && to in p.chains
  {
    if !Holds(p, to, head) then Some(p)
    else match Reroot(p, to, once)
         case None => None
         case Some(q) => Some(q.(current := to))
  }

  /** Where it answers the disk's head. */
  function Switch(p: Pool, to: Id, once: bool): Option<Pool>
    requires Acyclic(p) && to in p.chains
  {
    SwitchAsked(p, to, DiskHead(p.disk), once)
  }

  // ---------------------------------------------------------------- frames

  ghost predicate SameRefs(p: Pool, q: Pool) {
    && p.chains.Keys == q.chains.Keys
    && forall i | i in p.chains :: q.chains[i].refer == p.chains[i].refer
  }

  lemma SameRefsAcyclic(p: Pool, q: Pool)
    requires Acyclic(p) && SameRefs(p, q)
    ensures Acyclic(q)
  {
    var rank := RankOf(p);
    forall i | i in q.chains
      ensures Descends(q, rank, i)
    {
      assert Descends(p, rank, i);
    }
    assert Ranked(q, rank);
  }

  lemma {:induction false} SameRefsRoot(p: Pool, q: Pool, id: Id)
    requires Acyclic(p) && Acyclic(q) && SameRefs(p, q) && id in p.chains
    ensures Root(q, id) == Root(p, id)
    decreases Rank(p, Chain(id))
  {
    ParentIsBelow(p, id);
    if p.chains[id].refer.Chain? { SameRefsRoot(p, q, p.chains[id].refer.id); }
  }

  /** Every chain of `p` is unchanged in `q`, which may have more. */
  ghost predicate Extends(p: Pool, q: Pool) {
    && p.disk == q.disk
    && p.chains.Keys <= q.chains.Keys
    && forall i | i in p.chains :: q.chains[i] == p.chains[i]
  }

  lemma {:induction false} ExtendsKeeps(p: Pool, q: Pool, id: Id, h: int)
    requires Acyclic(p) && Acyclic(q) && Extends(p, q) && id in p.chains
    ensures At(q, id, h) == At(p, id, h) && Root(q, id) == Root(p, id)
    decreases Rank(p, Chain(id))
  {
    ParentIsBelow(p, id);
    OwnOrParent(p, id, h);
    OwnOrParent(q, id, h);
    if p.chains[id].refer.Chain? { ExtendsKeeps(p, q, p.chains[id].refer.id, h); }
  }

  lemma AddChainAcyclic(p: Pool, q: Pool, id: Id)
    requires Acyclic(p) && id !in p.chains && id in q.chains && q.chains == p.chains[id := q.chains[id]]
    requires InPool(p, q.chains[id].refer)
    ensures Acyclic(q)
  {
    var rank := RankOf(p);
    var top := if q.chains[id].refer.Chain? then rank[q.chains[id].refer.id] + 1 else 0;
    var rank' := rank[id := top];
    forall i | i in q.chains
      ensures Descends(q, rank', i)
    {
      if i != id { assert Descends(p, rank, i); }
    }
    assert Ranked(q, rank');
  }

  /** `q` is `p` with the disk grown by a block that current holds in `p`. */
  ghost predicate Regrown(p: Pool, q: Pool) {
    && SameRefs(p, q) && p.current in p.chains && p.chains[p.current].refer.Disk?
    && |q.disk| == |p.disk| + 1 && q.disk[..|p.disk|] == p.disk
    && (forall i | i in p.chains && i != p.current :: q.chains[i] == p.chains[i])
    && var c, d := p.chains[p.current].blocks, q.chains[p.current].blocks;
       && |p.disk| in c && c[|p.disk|] == q.disk[|p.disk|] && d == c - {|p.disk|}
  }

  /** Chains that rest on current do not notice where the disk ends. */
  lemma {:induction false} RegrownKeepsLive(p: Pool, q: Pool, id: Id, h: int)
    requires Acyclic(p) && Acyclic(q) && Regrown(p, q) && id in p.chains && Root(p, id) == p.current
    ensures At(q, id, h) == At(p, id, h)
    decreases Rank(p, Chain(id))
  {
    ParentIsBelow(p, id);
    OwnOrParent(p, id, h);
    OwnOrParent(q, id, h);
    if p.chains[id].refer.Chain? {
      RegrownKeepsLive(p, q, p.chains[id].refer.id, h);
    }
  }

  /** Any other chain keeps its lookups except that the new disk block may fill a hole. */
  lemma {:induction false} RegrownElsewhere(p: Pool, q: Pool, id: Id, h: int)
    requires Acyclic(p) && Acyclic(q) && Regrown(p, q) && id in p.chains && Root(p, id) != p.current
    ensures At(q, id, h) == At(p, id, h) || (h == |p.disk| && At(p, id, h).None?)
    ensures LowTail(q, id) == LowTail(p, id)
    decreases Rank(p, Chain(id))
  {
    ParentIsBelow(p, id);
    OwnOrParent(p, id, h);
    OwnOrParent(q, id, h);
    if p.chains[id].refer.Chain? {
      RegrownElsewhere(p, q, p.chains[id].refer.id, h);
    }
  }

  function PushTail(c: Forked, w: Block): Forked {
    c.(tailHash := w.preHash, tail := w.height - 1, blocks := c.blocks[w.height := w])
  }

  lemma PushTailFills(c: Forked, w: Block)
    requires Filled(c) && w.height == c.tail && c.tail >= 0
    requires c.tail < c.head ==> c.blocks[c.tail + 1].preHash == w.hash
    requires c.tail == c.head ==> c.headHash == w.hash
    ensures Filled(PushTail(c, w))
  {
    var d := PushTail(c, w);
    assert forall h :: h in d.blocks <==> d.tail < h <= d.head;
    forall h ensures LinkAt(d.blocks, h) { assert LinkAt(c.blocks, h); }
  }

  lemma DropTailFills(c: Forked)
    requires Filled(c) && c.tail < c.head
    ensures Filled(c.(tailHash := c.blocks[c.tail + 1].hash, tail := c.tail + 1, blocks := c.blocks - {c.tail + 1}))
  {
    var d := c.blocks - {c.tail + 1};
    forall h ensures LinkAt(d, h) { assert LinkAt(c.blocks, h); }
  }

  lemma AddHeadFills(c: Forked, w: Block)
    requires Filled(c) && w.height == c.head + 1 && c.headHash == w.preHash
    ensures Filled(c.(headHash := w.hash, head := w.height, blocks := c.blocks[w.height := w]))
  {
    var d := c.blocks[w.height := w];
    forall h ensures LinkAt(d, h) { assert LinkAt(c.blocks, h); }
  }

  /** What the disk and a sound current chain say about the block between them. */
  lemma BoundaryLinks(p: Pool)
    requires TreeOk(p) && DiskOk(p.disk) && p.current in p.chains && p.chains[p.current].refer.Disk?
    requires p.chains[p.current].tail == |p.disk| - 1 && |p.disk| > 0 && Sound(p, p.current)
    ensures Filled(PushTail(p.chains[p.current], p.disk[|p.disk| - 1]))
  {
    assert ChainOk(p, p.current);
    var c, h := p.chains[p.current], |p.disk| - 1;
    OwnOrParent(p, p.current, h);
    assert At(p, p.current, h) == Some(p.disk[h]);
    if c.tail < c.head {
      OwnOrParent(p, p.current, h + 1);
      assert SoundAt(p, p.current, h + 1);
    }
    PushTailFills(c, p.disk[h]);
  }

  lemma PopShape(p: Pool)
    requires p.current in p.chains && |p.disk| > 0 && Filled(p.chains[p.current])
    requires p.chains[p.current].refer.Disk? && p.chains[p.current].tail == |p.disk| - 1
    requires p.disk[|p.disk| - 1].height == |p.disk| - 1
    ensures Regrown(Pop(p), p)
    ensures Pop(p).chains[p.current] == PushTail(p.chains[p.current], p.disk[|p.disk| - 1])
  {
    var c, h := p.chains[p.current].blocks, |p.disk| - 1;
    assert h !in c;
    assert c[h := p.disk[h]] - {h} == c;
  }

  lemma TreeOkOneChain(p: Pool, q: Pool, id: Id)
    requires TreeOk(p) && SameRefs(p, q) && id in p.chains && p.lastId == q.lastId
    requires forall i | i in p.chains && i != id :: q.chains[i] == p.chains[i]
    requires Filled(q.chains[id]) && p.chains[id].head <= q.chains[id].head
    requires q.chains[id].tail <= p.chains[id].tail || q.chains[id].refer.Disk?
    ensures TreeOk(q)
  {
    SameRefsAcyclic(p, q);
    forall i | i in q.chains
      ensures ChainOk(q, i)
    {
      assert ChainOk(p, i);
    }
  }

  lemma WriteIsRegrown(p: Pool)
    requires TreeOk(p) && p.current in p.chains && p.chains[p.current].refer.Disk?
    requires p.chains[p.current].tail == |p.disk| - 1 && p.chains[p.current].tail < p.chains[p.current].head
    ensures p.chains[p.current].tail + 1 in p.chains[p.current].blocks
    ensures Regrown(p, Write(p)) && TreeOk(Write(p))
  {
    assert ChainOk(p, p.current);
    DropTailFills(p.chains[p.current]);
    TreeOkOneChain(p, Write(p), p.current);
  }

  lemma PopIsRegrown(p: Pool)
    requires TreeOk(p) && DiskOk(p.disk) && p.current in p.chains && p.chains[p.current].refer.Disk?
    requires p.chains[p.current].tail == |p.disk| - 1 && |p.disk| > 0 && Sound(p, p.current)
    ensures Regrown(Pop(p), p) && TreeOk(Pop(p))
  {
    assert ChainOk(p, p.current);
    PopShape(p);
    BoundaryLinks(p);
    TreeOkOneChain(p, Pop(p), p.current);
  }

  /** A block put on a chain's head changes no lookup at or below anyone's head. */
  lemma {:induction false} InsertKeeps(p: Pool, c: Id, w: Block, id: Id, h: int)
    requires TreeOk(p) && c in p.chains && id in p.chains && h <= p.chains[id].head
    requires Acyclic(Insert(p, c, w))
    ensures At(Insert(p, c, w), id, h) == At(p, id, h)
    decreases Rank(p, Chain(id))
  {
    var q := Insert(p, c, w);
    ParentIsBelow(p, id);
    assert ChainOk(p, id) && ChainOk(p, c);
    OwnOrParent(p, id, h);
    OwnOrParent(q, id, h);
    if p.chains[id].refer.Chain? && h <= p.chains[id].tail {
      InsertKeeps(p, c, w, p.chains[id].refer.id, h);
    }
  }
}
