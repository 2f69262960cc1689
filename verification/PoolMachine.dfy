/** The pool as a state machine: what every step keeps, and what every run keeps.

    `Inv` says that every chain's blocks fill exactly (tail, head] and are hash-linked, that the
    disk is hash-linked, that current rests on the disk exactly at its head, and that every chain
    resting on current is a complete, hash-linked sequence from height 0 to its own head. */
module PoolMachine {
  import opened Blocks
  import opened ForkTree
  import opened Rerooting
  import opened PoolSteps

  /** Chain `id` is still complete in `q`, and up to its head in `p` it is the same. */
  ghost predicate Continues(p: Pool, q: Pool, id: Id)
    requires Acyclic(p) && Acyclic(q) && id in p.chains
  {
    && id in q.chains && p.chains[id].head <= q.chains[id].head && Sound(q, id)
    && forall h | h <= p.chains[id].head :: At(q, id, h) == At(p, id, h)
  }

  lemma SameContinues(p: Pool, q: Pool, id: Id)
    requires Acyclic(p) && Acyclic(q) && id in p.chains && id in q.chains
    requires SameLogical(p, q, id) && q.chains[id].headHash == p.chains[id].headHash && Sound(p, id)
    ensures Continues(p, q, id)
  {
    SameLogicalKeepsSound(p, q, id);
  }

  lemma ContinuesTrans(p: Pool, q: Pool, z: Pool, id: Id)
    requires Acyclic(p) && Acyclic(q) && Acyclic(z) && id in p.chains
    requires Continues(p, q, id) && Continues(q, z, id)
    ensures Continues(p, z, id)
  {
  }

  // ---------------------------------------------------------------- insert

  lemma InsertTreeOk(p: Pool, c: Id, w: Block)
    requires TreeOk(p) && c in p.chains
    ensures TreeOk(Insert(p, c, w))
  {
    assert ChainOk(p, c);
    var q := Insert(p, c, w);
    if q != p {
      AddHeadFills(p.chains[c], w);
      TreeOkOneChain(p, q, c);
    }
  }

  lemma InsertContinues(p: Pool, c: Id, w: Block, id: Id)
    requires TreeOk(p) && c in p.chains && id in p.chains && Sound(p, id)
    ensures Acyclic(Insert(p, c, w)) && Continues(p, Insert(p, c, w), id)
  {
    var q := Insert(p, c, w);
    InsertTreeOk(p, c, w);
    forall h | h <= p.chains[id].head
      ensures At(q, id, h) == At(p, id, h)
    {
      InsertKeeps(p, c, w, id, h);
    }
    assert ChainOk(p, id);
    if id == c && q != p {
      OwnOrParent(q, c, w.height);
      GrownIsSound(p, q, id, w);
    } else {
      SameContinues(p, q, id);
    }
  }

  /** A sound chain with one more block that names its head is sound. */
  lemma GrownIsSound(p: Pool, q: Pool, id: Id, w: Block)
    requires Acyclic(p) && Acyclic(q) && id in p.chains && id in q.chains && Sound(p, id)
    requires -1 <= p.chains[id].head && w.height == p.chains[id].head + 1 == q.chains[id].head
    requires w.preHash == p.chains[id].headHash && q.chains[id].headHash == w.hash
    requires forall h | h <= p.chains[id].head :: At(q, id, h) == At(p, id, h)
    requires At(q, id, w.height) == Some(w)
    ensures Sound(q, id)
  {
    forall h | 0 < h <= w.height
      ensures SoundAt(q, id, h)
    {
      if h < w.height { assert SoundAt(p, id, h); }
      assert At(q, id, h - 1) == At(p, id, h - 1);
    }
  }

  // ---------------------------------------------------------------- write and rollback

  lemma WriteContinues(p: Pool, id: Id)
    requires Inv(p) && p.chains[p.current].tail < p.chains[p.current].head && id in p.chains && Sound(p, id)
    ensures p.chains[p.current].tail + 1 in p.chains[p.current].blocks
    ensures TreeOk(Write(p)) && Continues(p, Write(p), id)
  {
    WriteIsRegrown(p);
    var q := Write(p);
    forall h | h <= p.chains[id].head
      ensures At(q, id, h) == At(p, id, h)
    {
      if Root(p, id) == p.current { RegrownKeepsLive(p, q, id, h); } else { RegrownElsewhere(p, q, id, h); }
    }
    SameContinues(p, q, id);
  }

  lemma WriteDiskOk(p: Pool)
    requires Inv(p) && p.chains[p.current].tail < p.chains[p.current].head
    ensures p.chains[p.current].tail + 1 in p.chains[p.current].blocks && DiskOk(Write(p).disk)
  {
    assert ChainOk(p, p.current);
    var h := |p.disk|;
    OwnOrParent(p, p.current, h);
    OwnOrParent(p, p.current, h - 1);
    CurrentIsSound(p);
    if h > 0 { assert SoundAt(p, p.current, h); }
    var disk := Write(p).disk;
    forall i ensures DiskLinkAt(disk, i) { assert DiskLinkAt(p.disk, i); }
  }

  lemma CurrentIsSound(p: Pool)
    requires Inv(p)
    ensures Root(p, p.current) == p.current && Sound(p, p.current)
  {
    assert Root(p, p.current) == p.current;
    assert Sound(p, p.current);
  }

  lemma PopContinues(p: Pool, id: Id)
    requires Inv(p) && |p.disk| > 0 && id in p.chains && Sound(p, id)
    requires Root(p, id) == p.current || LowTail(p, id) < |p.disk| - 1
    ensures TreeOk(Pop(p)) && Continues(p, Pop(p), id)
    ensures Root(Pop(p), id) == Root(p, id)
    ensures Root(p, id) != p.current ==> LowTail(Pop(p), id) == LowTail(p, id)
  {
    CurrentIsSound(p);
    PopIsRegrown(p);
    var q := Pop(p);
    SameRefsRoot(p, q, id);
    forall h | h <= p.chains[id].head
      ensures At(q, id, h) == At(p, id, h)
    {
      if Root(p, id) == p.current {
        RegrownKeepsLive(q, p, id, h);
      } else {
        RegrownElsewhere(q, p, id, h);
        if h == |q.disk| { LookupSplits(q, id, h); }
      }
    }
    if Root(p, id) != p.current { RegrownElsewhere(q, p, id, 0); }
    SameContinues(p, q, id);
  }

  lemma PrefixDiskOk(disk: seq<Block>, n: nat)
    requires DiskOk(disk) && n <= |disk|
    ensures DiskOk(disk[..n])
  {
    forall i ensures DiskLinkAt(disk[..n], i) { assert DiskLinkAt(disk, i); }
  }

  lemma PopKeepsInv(p: Pool)
    requires Inv(p) && |p.disk| > 0
    ensures Inv(Pop(p))
  {
    CurrentIsSound(p);
    PrefixDiskOk(p.disk, |p.disk| - 1);
    PopContinues(p, p.current);
    var q := Pop(p);
    forall id | id in q.chains && Root(q, id) == q.current
      ensures Sound(q, id)
    {
      PopIsRegrown(p);
      SameRefsRoot(p, q, id);
      PopContinues(p, id);
    }
  }

  /** Rolling back keeps the invariant and the chains that rest on current, or that reach the
      disk at or below the new head. */
  lemma {:induction false} PopToContinues(p: Pool, n: int, id: Id)
    requires Inv(p) && -1 <= n && id in p.chains && Sound(p, id)
    requires Root(p, id) == p.current || LowTail(p, id) <= n
    ensures Inv(PopTo(p, n)) && Continues(p, PopTo(p, n), id)
    ensures |PopTo(p, n).disk| - 1 == Min(|p.disk| - 1, n)
    ensures PopTo(p, n).disk == p.disk[..|PopTo(p, n).disk|]
    ensures Root(PopTo(p, n), id) == Root(p, id)
    decreases |p.disk|
  {
    if |p.disk| - 1 <= n {
      SameContinues(p, p, id);
    } else {
      PopKeepsInv(p);
      PopContinues(p, id);
      PopToContinues(Pop(p), n, id);
      ContinuesTrans(p, Pop(p), PopTo(p, n), id);
    }
  }

  // ---------------------------------------------------------------- direct insertion

  lemma {:induction false} GrowKeeps(p: Pool, b: Block, id: Id, h: int)
    requires Acyclic(p) && id in p.chains && (At(p, id, h).Some? || h != |p.disk|)
    ensures Acyclic(p.(disk := p.disk + [b]))
    ensures At(p.(disk := p.disk + [b]), id, h) == At(p, id, h)
    decreases Rank(p, Chain(id))
  {
    var q := p.(disk := p.disk + [b]);
    SameRefsAcyclic(p, q);
    ParentIsBelow(p, id);
    OwnOrParent(p, id, h);
    OwnOrParent(q, id, h);
    if p.chains[id].refer.Chain? && h !in p.chains[id].blocks { GrowKeeps(p, b, p.chains[id].refer.id, h); }
  }

  /** A block the store keeps in error disturbs no complete chain, but the pool's current chain no
      longer stands at the disk's head. */
  lemma KeptContinues(p: Pool, b: Block, id: Id)
    requires Inv(p) && DiskOk(p.disk + [b]) && id in p.chains && Sound(p, id)
    ensures TreeOk(Keep(p, b)) && DiskOk(Keep(p, b).disk) && !Inv(Keep(p, b))
    ensures Continues(p, Keep(p, b), id)
  {
    var q := Keep(p, b);
    SameRefsAcyclic(p, q);
    forall i | i in q.chains
      ensures ChainOk(q, i)
    {
      assert ChainOk(p, i);
    }
    forall h | h <= p.chains[id].head
      ensures At(q, id, h) == At(p, id, h)
    {
      GrowKeeps(p, b, id, h);
    }
    SameContinues(p, q, id);
  }

  ghost predicate NextOnDisk(disk: seq<Block>, b: Block) {
    b.height == |disk| && b.preHash == DiskHead(disk).hash
  }

  predicate MovesUp(p: Pool, b: Block)
    requires p.current in p.chains
  {
    var c := p.chains[p.current];
    c.head == c.tail && c.tailHash == b.preHash && c.headHash == b.preHash
  }

  lemma NewIdIsFresh(p: Pool)
    requires TreeOk(p)
    ensures p.lastId + 1 !in p.chains
  {
    forall i | i in p.chains
      ensures i <= p.lastId
    {
      assert ChainOk(p, i);
    }
  }

  /** A direct insertion touches at most the current chain, and then only its bounds. */
  lemma DirectChains(p: Pool, b: Block)
    requires TreeOk(p) && p.current in p.chains && p.chains[p.current].refer.Disk?
    requires b.height == |p.disk| && p.chains[p.current].tail == |p.disk| - 1
    ensures var q := Direct(p, b);
            && p.chains.Keys <= q.chains.Keys && q.disk == p.disk + [b]
            && (forall i | i in p.chains && !(MovesUp(p, b) && i == p.current) :: q.chains[i] == p.chains[i])
            && (MovesUp(p, b) ==>
                  && SameRefs(p, q) && q.current == p.current
                  && q.chains[p.current].blocks == p.chains[p.current].blocks
                  && (forall h :: h !in p.chains[p.current].blocks) && Filled(q.chains[p.current]))
            && (!MovesUp(p, b) ==> q.current !in p.chains && q.current == q.lastId == p.lastId + 1)
  {
    NewIdIsFresh(p);
    assert ChainOk(p, p.current);
  }

  lemma DirectTreeOk(p: Pool, b: Block)
    requires Inv(p) && NextOnDisk(p.disk, b)
    ensures TreeOk(Direct(p, b)) && DiskOk(Direct(p, b).disk)
  {
    var q := Direct(p, b);
    DirectChains(p, b);
    assert ChainOk(p, p.current);
    forall i ensures DiskLinkAt(p.disk + [b], i) { assert DiskLinkAt(p.disk, i); }
    if MovesUp(p, b) {
      TreeOkOneChain(p, q, p.current);
    } else {
      AddChainTreeOk(p, q, p.lastId + 1);
    }
  }

  lemma AddChainTreeOk(p: Pool, q: Pool, id: Id)
    requires TreeOk(p) && id !in p.chains && id in q.chains && q.chains == p.chains[id := q.chains[id]]
    requires InPool(p, q.chains[id].refer) && p.lastId <= q.lastId && ChainOk(q, id)
    ensures TreeOk(q)
  {
    AddChainAcyclic(p, q, id);
    forall i | i in q.chains
      ensures ChainOk(q, i)
    {
      if i != id { assert ChainOk(p, i); }
    }
  }

  /** The notification itself moves no block. */
  lemma {:induction false} DirectLookup(p: Pool, b: Block, id: Id, h: int)
    requires Inv(p) && NextOnDisk(p.disk, b) && id in p.chains
    ensures TreeOk(Direct(p, b)) && Acyclic(p.(disk := p.disk + [b]))
    ensures id in Direct(p, b).chains && At(Direct(p, b), id, h) == At(p.(disk := p.disk + [b]), id, h)
    ensures Root(Direct(p, b), id) == Root(p, id)
    decreases Rank(p, Chain(id))
  {
    var p1, q := p.(disk := p.disk + [b]), Direct(p, b);
    SameRefsAcyclic(p, p1);
    DirectTreeOk(p, b);
    ParentIsBelow(p, id);
    OwnOrParent(p1, id, h);
    DirectChains(p, b);
    assert q.chains[id].blocks == p.chains[id].blocks && q.chains[id].refer == p.chains[id].refer;
    OwnOrParent(q, id, h);
    if p.chains[id].refer.Chain? { DirectLookup(p, b, p.chains[id].refer.id, h); }
  }

  lemma DirectKeepsLookups(p: Pool, b: Block, id: Id)
    requires Inv(p) && NextOnDisk(p.disk, b) && id in p.chains && Sound(p, id)
    ensures TreeOk(Direct(p, b)) && id in Direct(p, b).chains
    ensures forall h | h <= p.chains[id].head :: At(Direct(p, b), id, h) == At(p, id, h)
  {
    DirectLookup(p, b, id, 0);
    forall h | h <= p.chains[id].head
      ensures At(Direct(p, b), id, h) == At(p, id, h)
    {
      GrowKeeps(p, b, id, h);
      DirectLookup(p, b, id, h);
    }
  }

  lemma DirectContinues(p: Pool, b: Block, id: Id)
    requires Inv(p) && NextOnDisk(p.disk, b) && id in p.chains && Sound(p, id)
    ensures TreeOk(Direct(p, b)) && Continues(p, Direct(p, b), id)
  {
    DirectKeepsLookups(p, b, id);
    DirectChains(p, b);
    if MovesUp(p, b) && id == p.current {
      MovedUpIsSound(p, b);
    } else {
      assert SameLogical(p, Direct(p, b), id);
      SameContinues(p, Direct(p, b), id);
    }
  }

  lemma MovedUpIsSound(p: Pool, b: Block)
    requires Inv(p) && NextOnDisk(p.disk, b) && MovesUp(p, b)
    ensures TreeOk(Direct(p, b)) && Sound(Direct(p, b), p.current)
  {
    var q, c := Direct(p, b), p.current;
    DirectTreeOk(p, b);
    DirectChains(p, b);
    OnDiskIsSound(q, c);
  }

  /** An empty chain on a linked disk, ending at its head, is complete. */
  lemma OnDiskIsSound(q: Pool, c: Id)
    requires Acyclic(q) && DiskOk(q.disk) && c in q.chains && q.chains[c].refer.Disk?
    requires (forall h :: h !in q.chains[c].blocks) && q.chains[c].head == |q.disk| - 1
    requires q.chains[c].headHash == DiskHead(q.disk).hash
    ensures Sound(q, c)
  {
    forall h
      ensures At(q, c, h) == DiskBlock(q.disk, h)
    {
      OwnOrParent(q, c, h);
    }
    forall h | 0 < h <= q.chains[c].head ensures SoundAt(q, c, h) { assert DiskLinkAt(q.disk, h); }
  }

  lemma DirectKeepsInv(p: Pool, b: Block)
    requires Inv(p) && NextOnDisk(p.disk, b)
    ensures Inv(Direct(p, b))
  {
    var q := Direct(p, b);
    CurrentIsSound(p);
    DirectTreeOk(p, b);
    DirectChains(p, b);
    if !MovesUp(p, b) { OnDiskIsSound(q, q.current); }
    forall id | id in q.chains && Root(q, id) == q.current
      ensures Sound(q, id)
    {
      if id in p.chains {
        DirectLookup(p, b, id, 0);
        DirectContinues(p, b, id);
      }
    }
  }

  /** What a direct insertion leaves: an empty chain that ends at the new block is current. It takes the
      place of the current chain exactly when that is empty, and is a new chain otherwise. */
  lemma DirectExactly(p: Pool, b: Block)
    requires Inv(p) && NextOnDisk(p.disk, b)
    ensures p.lastId + 1 !in p.chains
    ensures var c, d := p.chains[p.current], Forked(|p.disk|, b.hash, |p.disk|, b.hash, map[], Disk);
            Direct(p, b) ==
            if c.blocks.Keys == {} then
              Pool(p.disk + [b], p.chains[p.current := d], p.current, p.lastId)
            else Pool(p.disk + [b], p.chains[p.lastId + 1 := d], p.lastId + 1, p.lastId + 1)
  {
    var c := p.chains[p.current];
    NewIdIsFresh(p);
    EmptyEndsAtDisk(p);
    if c.blocks.Keys == {} { assert c.blocks == map[]; }
  }

  /** An empty current chain ends at the disk's head. */
  lemma EmptyEndsAtDisk(p: Pool)
    requires Inv(p)
    ensures var c := p.chains[p.current];
            && (c.blocks.Keys == {} <==> c.head == c.tail)
            && (c.head == c.tail ==> c.tailHash == c.headHash == DiskHead(p.disk).hash)
  {
    var c := p.chains[p.current];
    CurrentIsSound(p);
    assert ChainOk(p, p.current);
    if c.head == c.tail {
      assert forall h :: h !in c.blocks;
      OwnOrParent(p, p.current, c.head);
      assert At(p, p.current, c.head) == DiskBlock(p.disk, c.head);
    } else {
      assert c.head in c.blocks.Keys;
    }
  }

  // ---------------------------------------------------------------- fork

  /** What `forky` establishes before a fork: the snippet leaves `parent` at a block it has. */
  ghost predicate Forks(p: Pool, parent: Id, s: Snippet)
    requires Acyclic(p)
  {
    && parent in p.chains && SnippetOk(s) && s.tail < s.head
    && s.tail <= p.chains[parent].head
    && At(p, parent, s.tail).Some? && At(p, parent, s.tail).value.hash == s.tailHash
  }

  lemma ForkTreeOk(p: Pool, parent: Id, s: Snippet)
    requires TreeOk(p) && Forks(p, parent, s)
    ensures p.lastId + 1 !in p.chains && TreeOk(Fork(p, parent, s)) && Extends(p, Fork(p, parent, s))
  {
    NewIdIsFresh(p);
    assert ChainOk(p, parent);
    AddChainTreeOk(p, Fork(p, parent, s), p.lastId + 1);
  }

  lemma ForkContinues(p: Pool, parent: Id, s: Snippet, id: Id)
    requires TreeOk(p) && Forks(p, parent, s) && id in p.chains && Sound(p, id)
    ensures TreeOk(Fork(p, parent, s)) && Continues(p, Fork(p, parent, s), id)
  {
    var q := Fork(p, parent, s);
    ForkTreeOk(p, parent, s);
    forall h ensures At(q, id, h) == At(p, id, h) { ExtendsKeeps(p, q, id, h); }
    SameContinues(p, q, id);
  }

  /** The new chain reads its own blocks above the tail and the parent's below. */
  lemma ForkIsSound(p: Pool, parent: Id, s: Snippet)
    requires TreeOk(p) && Forks(p, parent, s) && Sound(p, parent)
    ensures TreeOk(Fork(p, parent, s)) && Sound(Fork(p, parent, s), p.lastId + 1)
  {
    var q, id := Fork(p, parent, s), p.lastId + 1;
    ForkTreeOk(p, parent, s);
    forall h
      ensures At(q, id, h) == if h in s.blocks then Some(s.blocks[h]) else At(p, parent, h)
    {
      OwnOrParent(q, id, h);
      ExtendsKeeps(p, q, parent, h);
    }
    forall h | 0 < h <= s.head
      ensures SoundAt(q, id, h)
    {
      assert LinkAt(s.blocks, h);
      if h <= s.tail { assert SoundAt(p, parent, h); }
    }
  }

  lemma ForkKeepsInv(p: Pool, parent: Id, s: Snippet)
    requires Inv(p) && Forks(p, parent, s)
    ensures Inv(Fork(p, parent, s))
  {
    var q, new' := Fork(p, parent, s), p.lastId + 1;
    ForkTreeOk(p, parent, s);
    forall id | id in q.chains && Root(q, id) == q.current
      ensures Sound(q, id)
    {
      if id == new' {
        assert Root(q, id) == Root(q, parent);
        ExtendsKeeps(p, q, parent, 0);
        ForkIsSound(p, parent, s);
      } else {
        ExtendsKeeps(p, q, id, 0);
        ForkContinues(p, parent, s, id);
      }
    }
  }

  // ---------------------------------------------------------------- switch

  /** The target holds the disk's head. */
  predicate HoldsHead(p: Pool, to: Id)
    requires Acyclic(p) && to in p.chains
  {
    Holds(p, to, DiskHead(p.disk))
  }

  /** What an accepted switch leaves: the chains as re-rooting leaves them, the target current. */
  lemma SwitchMeans(p: Pool, to: Id, once: bool)
    requires Acyclic(p) && to in p.chains
    ensures !HoldsHead(p, to) ==> Switch(p, to, once) == Some(p)
    ensures HoldsHead(p, to) ==>
              Switch(p, to, once) == (match Reroot(p, to, once)
                                      case None => None
                                      case Some(q) => Some(q.(current := to)))
  {
  }

  /** Over fitting hops a switch goes through and changes the meaning of no chain, whatever block the
      store answers as its head. */
  lemma AskedKeepsMeaning(p: Pool, to: Id, head: Block, once: bool)
    requires Shapely(p) && to in p.chains && HopsFit(p, to, once)
    ensures SwitchAsked(p, to, head, once).Some?
    ensures var z := SwitchAsked(p, to, head, once).value;
            && Shapely(z) && AllSameLogical(p, z) && z.disk == p.disk
            && z.current == (if Holds(p, to, head) then to else p.current)
            && (forall i | i in p.chains :: z.chains[i].headHash == p.chains[i].headHash)
  {
    RerootKeepsShape(p, to, once);
    RerootFrame(p, to, once);
    var q, z := Reroot(p, to, once).value, SwitchAsked(p, to, head, once).value;
    if Holds(p, to, head) { CurrentIsNoShape(q, to); SameLogicalTrans(p, q, z); }
  }

  lemma SwitchKeepsMeaning(p: Pool, to: Id, once: bool)
    requires Shapely(p) && to in p.chains && HopsFit(p, to, once)
    ensures Switch(p, to, once).Some?
    ensures var z := Switch(p, to, once).value;
            && Shapely(z) && AllSameLogical(p, z) && z.disk == p.disk
            && z.current == (if HoldsHead(p, to) then to else p.current)
            && (forall i | i in p.chains :: z.chains[i].headHash == p.chains[i].headHash)
  {
    AskedKeepsMeaning(p, to, DiskHead(p.disk), once);
  }

  /** Which chain is current matters to no lookup. */
  lemma CurrentIsNoShape(q: Pool, to: Id)
    requires Shapely(q)
    ensures var z := q.(current := to);
            && Shapely(z) && AllSameLogical(q, z) && (TreeOk(q) ==> TreeOk(z))
            && forall id | id in q.chains :: Root(z, id) == Root(q, id)
  {
    var z := q.(current := to);
    SameRefsAcyclic(q, z);
    forall id | id in z.chains
      ensures ShapeOk(z, id) && (ChainOk(q, id) ==> ChainOk(z, id))
      ensures SameLogical(q, z, id) && Root(z, id) == Root(q, id)
    {
      assert ShapeOk(q, id);
      forall h ensures At(z, id, h) == At(q, id, h) { ExtendsKeeps(q, z, id, h); }
      ExtendsKeeps(q, z, id, 0);
    }
  }

  /** So a complete chain continues through any switch over fitting hops, whatever the target. */
  lemma SwitchContinues(p: Pool, to: Id, once: bool, id: Id)
    requires Shapely(p) && to in p.chains && HopsFit(p, to, once) && id in p.chains && Sound(p, id)
    ensures Switch(p, to, once).Some?
    ensures Acyclic(Switch(p, to, once).value) && Continues(p, Switch(p, to, once).value, id)
  {
    SwitchKeepsMeaning(p, to, once);
    assert SameLogical(p, Switch(p, to, once).value, id);
    SameContinues(p, Switch(p, to, once).value, id);
  }

  /** The tree of `id` is complete in `q` exactly when it was in `p`. */
  lemma SoundBothWays(p: Pool, q: Pool, id: Id)
    requires Acyclic(p) && Acyclic(q) && AllSameLogical(p, q) && id in p.chains
    requires q.chains[id].headHash == p.chains[id].headHash
    ensures Sound(p, id) <==> Sound(q, id)
  {
    assert SameLogical(p, q, id) && SameLogical(q, p, id);
    if Sound(p, id) { SameLogicalKeepsSound(p, q, id); }
    if Sound(q, id) { SameLogicalKeepsSound(q, p, id); }
  }

  /** Where an accepted switch leaves the roots and the target's tail. */
  lemma AskedRoots(p: Pool, to: Id, head: Block, once: bool, id: Id)
    requires Shapely(p) && to in p.chains && HopsFit(p, to, once) && Holds(p, to, head) && id in p.chains
    ensures SwitchAsked(p, to, head, once).Some?
    ensures var z := SwitchAsked(p, to, head, once).value;
            && Acyclic(z) && id in z.chains && to in z.chains && z.chains[to].refer.Disk?
            && z.chains[to].tail == p.chains[Root(p, to)].tail
            && (Root(z, id) == to <==> Root(p, id) == Root(p, to))
  {
    RerootKeepsShape(p, to, once);
    RerootFrame(p, to, once);
    RerootRoot(p, to, once, id);
    CurrentIsNoShape(Reroot(p, to, once).value, to);
  }

  lemma AskedTreeSound(p: Pool, to: Id, head: Block, once: bool)
    requires Shapely(p) && to in p.chains && HopsFit(p, to, once) && Holds(p, to, head)
    ensures SwitchAsked(p, to, head, once).Some?
    ensures var z := SwitchAsked(p, to, head, once).value;
            Acyclic(z) && (TreeSound(z, to) <==> TreeSound(p, Root(p, to)))
  {
    AskedKeepsMeaning(p, to, head, once);
    var z := SwitchAsked(p, to, head, once).value;
    forall id | id in p.chains
      ensures Root(z, id) == to <==> Root(p, id) == Root(p, to)
      ensures Sound(p, id) <==> Sound(z, id)
    {
      AskedRoots(p, to, head, once, id);
      SoundBothWays(p, z, id);
    }
    if TreeSound(z, to) {
      forall id | id in p.chains && Root(p, id) == Root(p, to)
        ensures Sound(p, id)
      {
        assert Root(z, id) == to && Sound(z, id);
      }
    }
  }

  /** Where the target's root stands. */
  ghost predicate RootedAtHead(p: Pool, to: Id)
    requires Acyclic(p) && to in p.chains
  {
    p.chains[Root(p, to)].tail == |p.disk| - 1 && TreeSound(p, Root(p, to))
  }

  /** Over fitting hops, an accepted switch keeps the invariant exactly when the target's root
      has its tail at the disk's head and every chain on that root is complete. The code asks
      for neither. */
  lemma AskedKeepsInvExactly(p: Pool, to: Id, head: Block, once: bool)
    requires Inv(p) && to in p.chains && HopsFit(p, to, once) && Holds(p, to, head)
    ensures SwitchAsked(p, to, head, once).Some?
    ensures Inv(SwitchAsked(p, to, head, once).value) <==> RootedAtHead(p, to)
  {
    TreeIsShapely(p);
    AskedKeepsMeaning(p, to, head, once);
    AskedRoots(p, to, head, once, to);
    AskedTreeSound(p, to, head, once);
    if RootedAtHead(p, to) {
      assert Sound(p, to);
      RerootKeeps(p, to, once);
      RerootFrame(p, to, once);
      TreeIsShapely(Reroot(p, to, once).value);
      CurrentIsNoShape(Reroot(p, to, once).value, to);
    }
  }

  lemma SwitchKeepsInvExactly(p: Pool, to: Id, once: bool)
    requires Inv(p) && to in p.chains && HopsFit(p, to, once) && HoldsHead(p, to)
    ensures Switch(p, to, once).Some?
    ensures Inv(Switch(p, to, once).value) <==> RootedAtHead(p, to)
  {
    AskedKeepsInvExactly(p, to, DiskHead(p.disk), once);
  }

  /** In particular every chain on current is a safe target. */
  lemma CurrentTreeIsRooted(p: Pool, to: Id)
    requires Inv(p) && to in p.chains && Root(p, to) == p.current
    ensures RootedAtHead(p, to)
  {
  }
}
