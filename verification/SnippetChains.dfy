/** Snippets as objects, and the pool's loops over them, proved against Attach. */
module SnippetChains {
  import opened Blocks
  import opened ForkTree
  import opened PoolSteps
  import opened PoolMachine
  import opened Rerooting
  import opened Attach
  import opened ChainPools

  class SnippetChain {
    const chainId: Id
    var heightBlocks: map<int, Block>
    var headHeight: int
    var tailHeight: int
    var headHash: Hash
    var tailHash: Hash

    ghost function View(): Snippet
      reads this
    {
      Snippet(tailHeight, tailHash, headHeight, headHash, heightBlocks)
    }

    /** `init`: a snippet of one block. */
    constructor (chainId: Id, w: Block)
      ensures this.chainId == chainId
      ensures View() == Snippet(w.height - 1, w.preHash, w.height, w.hash, map[w.height := w])
    {
      this.chainId := chainId;
      this.heightBlocks := map[w.height := w];
      this.headHeight, this.headHash := w.height, w.hash;
      this.tailHash, this.tailHeight := w.preHash, w.height - 1;
    }

    method AddTail(w: Block)
      modifies this
      ensures View() == old(View()).(tailHash := w.preHash, tail := w.height - 1,
                                     blocks := old(heightBlocks)[w.height := w])
    {
      tailHash := w.preHash;
      tailHeight := w.height - 1;
      heightBlocks := heightBlocks[w.height := w];
    }

    method DeleteTail(newTail: Block)
      modifies this
      ensures View() == DropTail(old(View()), newTail)
    {
      tailHash := newTail.hash;
      tailHeight := newTail.height;
      heightBlocks := heightBlocks - {newTail.height};
    }

    method RemTail() returns (b: Option<Block>)
      modifies this
      ensures b == (if old(tailHeight) + 1 in old(heightBlocks) then Some(old(heightBlocks)[old(tailHeight) + 1]) else None)
      ensures View() == if b.Some? then DropTail(old(View()), b.value) else old(View())
    {
      if tailHeight + 1 !in heightBlocks {
        return None;
      }
      var newTail := heightBlocks[tailHeight + 1];
      DeleteTail(newTail);
      b := Some(newTail);
    }

    /** `merge`. */
    method Merge(o: SnippetChain)
      modifies this
      ensures View() == old(View()).(tail := old(o.tailHeight), tailHash := old(o.tailHash),
                                     blocks := old(heightBlocks) + old(o.heightBlocks))
    {
      tailHeight := o.tailHeight;
      tailHash := o.tailHash;
      heightBlocks := heightBlocks + o.heightBlocks;
    }

    /** `cutSnippet`. */
    method CutTo(height: int)
      requires SnippetOk(View())
      modifies this
      ensures View() == Cut(old(View()), height)
    {
      ghost var s := View();
      while true
        invariant SnippetOk(View()) && Cut(View(), height) == Cut(s, height)
        decreases headHeight - tailHeight
      {
        if tailHeight < headHeight { DropTailOk(View()); }
        var tail := RemTail();
        if tail.None? {
          return;
        }
        if tail.value.height >= height {
          return;
        }
      }
    }
  }

  /** `getBlock` of a chain, with or without its references. */
  method Lookup(pool: ChainPool, c: ForkedChain, refer: bool, h: int) returns (b: Option<Block>)
    requires pool.Valid() && pool.Has(c) && Acyclic(pool.View())
    ensures b == Seen(pool.View(), c.chainId, refer, h)
  {
    assert pool.View().chains[c.chainId] == c.View();
    if refer {
      b := pool.GetBlock(c, h);
    } else {
      b := if h in c.heightBlocks then Some(c.heightBlocks[h]) else None;
    }
  }

  /** `findForkPoint`: trims the snippet in place and returns the block the fork is at. */
  method FindForkPoint(pool: ChainPool, c: ForkedChain, refer: bool, snippet: SnippetChain) returns (point: Option<Block>)
    requires pool.Valid() && pool.Has(c) && Acyclic(pool.View()) && SnippetOk(snippet.View())
    modifies snippet
    ensures pool.Valid() && pool.View() == old(pool.View()) && SnippetOk(snippet.View())
    ensures (snippet.View(), point.Some?) == FindFork(old(pool.View()), c.chainId, refer, old(snippet.View()))
    ensures point.Some? ==> point == Seen(old(pool.View()), c.chainId, refer, snippet.tailHeight)
  {
    var forkpoint := Lookup(pool, c, refer, snippet.tailHeight);
    if forkpoint.None? {
      return None;
    }
    if forkpoint.value.hash != snippet.tailHash {
      return None;
    }
    point := FollowFrom(pool, c, refer, snippet, forkpoint.value);
  }

  /** One turn of the loop of `findForkPoint`: the lowest block goes if `uncle`, the chain's block at its
      height, is the same. */
  method FollowOne(ghost p: Pool, ghost c: Id, ghost refer: bool, snippet: SnippetChain, uncle: Option<Block>)
    returns (stopped: bool, differs: bool)
    requires Acyclic(p) && c in p.chains && SnippetOk(snippet.View()) && snippet.tailHeight < snippet.headHeight
    requires uncle == Seen(p, c, refer, snippet.tailHeight + 1)
    modifies snippet
    ensures SnippetOk(snippet.View()) && (differs ==> stopped)
    ensures stopped ==> snippet.View() == old(snippet.View()) && MatchUp(p, c, refer, old(snippet.View())) == (snippet.View(), differs)
    ensures !stopped ==> MatchUp(p, c, refer, old(snippet.View())) == MatchUp(p, c, refer, snippet.View())
                         && snippet.tailHeight == old(snippet.tailHeight) + 1 && snippet.headHeight == old(snippet.headHeight)
                         && Seen(p, c, refer, snippet.tailHeight) == uncle && uncle.Some?
  {
    MatchUpStep(p, c, refer, snippet.View());
    var block := snippet.heightBlocks[snippet.tailHeight + 1];
    if uncle.Some? && block.hash == uncle.value.hash {
      snippet.DeleteTail(block);
      stopped, differs := false, false;
    } else {
      stopped, differs := true, uncle.Some?;
    }
  }

  method FollowTurn(pool: ChainPool, c: ForkedChain, refer: bool, snippet: SnippetChain, ghost p: Pool)
    returns (stopped: bool, differs: bool, uncle: Option<Block>)
    requires pool.Valid() && pool.View() == p && pool.Has(c) && Acyclic(p) && c.chainId in p.chains
    requires SnippetOk(snippet.View()) && snippet.tailHeight < snippet.headHeight
    modifies snippet
    ensures pool.Valid() && pool.View() == p
    ensures SnippetOk(snippet.View()) && (differs ==> stopped)
    ensures var id, s := c.chainId, old(snippet.View());
            if stopped then snippet.View() == s && MatchUp(p, id, refer, s) == (s, differs)
            else
              && MatchUp(p, id, refer, s) == MatchUp(p, id, refer, snippet.View())
              && snippet.tailHeight == s.tail + 1 && snippet.headHeight == s.head
              && uncle.Some? && Seen(p, id, refer, snippet.tailHeight) == uncle
  {
    uncle := Lookup(pool, c, refer, snippet.tailHeight + 1);
    stopped, differs := FollowOne(p, c.chainId, refer, snippet, uncle);
  }

  /** The loop of `findForkPoint`, from a block the snippet stands on. */
  method FollowFrom(pool: ChainPool, c: ForkedChain, refer: bool, snippet: SnippetChain, start: Block) returns (point: Option<Block>)
    requires pool.Valid() && pool.Has(c) && Acyclic(pool.View()) && SnippetOk(snippet.View())
    requires Seen(pool.View(), c.chainId, refer, snippet.tailHeight) == Some(start)
    modifies snippet
    ensures pool.Valid() && pool.View() == old(pool.View()) && SnippetOk(snippet.View())
    ensures (snippet.View(), point.Some?) == MatchUp(old(pool.View()), c.chainId, refer, old(snippet.View()))
    ensures point.Some? ==> point == Seen(old(pool.View()), c.chainId, refer, snippet.tailHeight)
  {
    var forkpoint := Some(start);
    ghost var p, id := pool.View(), c.chainId;
    ghost var s := snippet.View();
    ghost var r := MatchUp(p, id, refer, s);
    var stopped, differs := false, false;
    while !stopped && snippet.tailHeight < snippet.headHeight
      invariant pool.Valid() && pool.View() == p && pool.Has(c)
      invariant snippet.View() == s && SnippetOk(s) && (differs ==> stopped)
      invariant r == if stopped then (s, differs) else MatchUp(p, id, refer, s)
      invariant forkpoint.Some? && forkpoint == Seen(p, id, refer, s.tail)
      decreases !stopped, snippet.headHeight - snippet.tailHeight
    {
      var uncle;
      stopped, differs, uncle := FollowTurn(pool, c, refer, snippet, p);
      s := snippet.View();
      forkpoint := if stopped then forkpoint else uncle;
    }
    assert r == (s, differs);
    point := if differs then forkpoint else None;
  }

  /** The ids of the chains offered. */
  function Ids(chains: seq<ForkedChain>): (ids: seq<Id>)
    ensures |ids| == |chains| && forall i | 0 <= i < |chains| :: ids[i] == chains[i].chainId
  {
    if chains == [] then [] else Ids(chains[..|chains| - 1]) + [chains[|chains| - 1].chainId]
  }

  ghost predicate Offered(pool: ChainPool, chains: seq<ForkedChain>)
    reads pool
  {
    forall i | 0 <= i < |chains| :: pool.Has(chains[i])
  }

  /** What one chain comes to in `forky`. */
  datatype Look = Passes | Answers(v: Placement)

  /** The turn for a snippet that begins at or below the chain's head and ends above it. */
  method ForkyOverlap(pool: ChainPool, snippet: SnippetChain, c: ForkedChain,
                      ghost p: Pool, ghost s: Snippet, ghost order: seq<Id>) returns (look: Look)
    requires pool.Valid() && pool.Has(c) && p == pool.View() && Acyclic(p) && s == snippet.View() && SnippetOk(s)
    requires order != [] && order[0] == c.chainId && forall d | d in order :: d in p.chains
    requires !Continuing(p, c.chainId, s) && Reached(p, c.chainId, s)
    modifies snippet
    ensures SnippetOk(snippet.View())
    ensures look.Passes? ==> Forky(p, s, order) == Forky(p, snippet.View(), order[1..])
    ensures look.Answers? ==> (snippet.View(), look.v) == Forky(p, s, order)
  {
    var block := pool.GetBlock(c, c.headHeight);
    if block.None? {
      look := Answers(NilHead);
    } else if block.value.height in snippet.heightBlocks && snippet.heightBlocks[block.value.height].hash == block.value.hash {
      snippet.CutTo(c.headHeight);
      look := Answers(if snippet.headHeight == snippet.tailHeight then Known else Append(c.chainId));
    } else {
      var point := FindForkPoint(pool, c, false, snippet);
      look := if point.Some? then Answers(ForkFrom(c.chainId))
              else if snippet.headHeight == snippet.tailHeight then Answers(Known) else Passes;
    }
  }

  /** One turn of the loop of `forky`. */
  method ForkyTurn(pool: ChainPool, snippet: SnippetChain, c: ForkedChain,
                   ghost p: Pool, ghost s: Snippet, ghost order: seq<Id>) returns (look: Look)
    requires pool.Valid() && pool.Has(c) && p == pool.View() && Acyclic(p) && s == snippet.View() && SnippetOk(s)
    requires order != [] && order[0] == c.chainId && forall d | d in order :: d in p.chains
    modifies snippet
    ensures pool.Valid() && pool.View() == p && SnippetOk(snippet.View())
    ensures look.Passes? ==> Forky(p, s, order) == Forky(p, snippet.View(), order[1..])
    ensures look.Answers? ==> (snippet.View(), look.v) == Forky(p, s, order)
  {
    assert p.chains[c.chainId] == c.View();
    look := Passes;
    if snippet.tailHeight == c.headHeight && snippet.tailHash == c.headHash {
      look := Answers(Append(c.chainId));
    } else if snippet.tailHeight <= c.headHeight < snippet.headHeight {
      look := ForkyOverlap(pool, snippet, c, p, s, order);
    }
  }

  /** The end of `forky`: current is tried through its references. */
  method ForkyLast(pool: ChainPool, snippet: SnippetChain) returns (v: Placement)
    requires pool.Valid() && Acyclic(pool.View()) && SnippetOk(snippet.View())
    modifies snippet
    ensures pool.Valid() && pool.View() == old(pool.View())
    ensures (snippet.View(), v) == ForkyCurrent(old(pool.View()), old(snippet.View()))
  {
    if snippet.tailHeight <= DiskHead(pool.disk).height {
      var point := FindForkPoint(pool, pool.current, true, snippet);
      if point.Some? {
        return ForkFrom(pool.current.chainId);
      }
    }
    v := if snippet.headHeight == snippet.tailHeight then Known else Unplaced;
  }

  /** `forky`, with the chains in the order the map yields them. `Known` tells that the snippet is
      to leave the pool's table, `NilHead` that the source panics. */
  method ForkyOf(pool: ChainPool, snippet: SnippetChain, chains: seq<ForkedChain>) returns (v: Placement)
    requires pool.Valid() && Acyclic(pool.View()) && SnippetOk(snippet.View()) && Offered(pool, chains)
    modifies snippet
    ensures pool.Valid() && pool.View() == old(pool.View())
    ensures (forall c | c in Ids(chains) :: c in pool.View().chains)
    ensures (snippet.View(), v) == Forky(pool.View(), old(snippet.View()), Ids(chains))
  {
    ghost var p, ids := pool.View(), Ids(chains);
    assert forall c | c in ids :: c in p.chains;
    ghost var r := Forky(p, snippet.View(), ids);
    var k, look := 0, Passes;
    while k < |chains| && look.Passes?
      invariant 0 <= k <= |chains| && pool.Valid() && pool.View() == p && Offered(pool, chains) && SnippetOk(snippet.View())
      invariant look.Passes? ==> Forky(p, snippet.View(), ids[k..]) == r
      invariant look.Answers? ==> (snippet.View(), look.v) == r
      decreases |chains| - k, look.Passes?
    {
      assert ids[k..][0] == chains[k].chainId && ids[k..][1..] == ids[k + 1..];
      look := ForkyTurn(pool, snippet, chains[k], p, snippet.View(), ids[k..]);
      k := if look.Passes? then k + 1 else k;
    }
    if look.Answers? {
      return look.v;
    }
    assert ids[k..] == [];
    v := ForkyLast(pool, snippet);
  }

  /** `insertSnippet`; it stops at the first block the chain refuses. */
  method InsertSnippetInto(pool: ChainPool, c: ForkedChain, snippet: SnippetChain) returns (ok: bool)
    requires pool.Valid() && pool.Has(c) && SnippetOk(snippet.View())
    modifies snippet, c
    ensures pool.Valid()
    ensures Inserted(pool.View(), snippet.View(), ok) == InsertSnippet(old(pool.View()), c.chainId, old(snippet.View()))
  {
    ghost var p, s, id := pool.View(), snippet.View(), c.chainId;
    ghost var r := InsertSnippet(p, id, s);
    ok := true;
    while ok && snippet.tailHeight < snippet.headHeight
      invariant pool.Valid() && pool.Has(c) && pool.View() == p && snippet.View() == s
      invariant id in p.chains && SnippetOk(s)
      invariant r == if ok then InsertSnippet(p, id, s) else Inserted(p, s, false)
      decreases ok, snippet.headHeight - snippet.tailHeight
    {
      ghost var w := s.blocks[s.tail + 1];
      assert SnippetOk(DropTail(s, w)) && id in Insert(p, id, w).chains by { InsertSnippetStep(p, id, s); }
      InsertSnippetStep(p, id, s);
      ok := InsertLowest(pool, c, snippet);
      p, s := Insert(p, id, w), if ok then DropTail(s, w) else s;
    }
    assert ok ==> s.tail == s.head && r == Inserted(p, s, true);
  }

  /** One turn of the loop of `insertSnippet`. */
  method InsertLowest(pool: ChainPool, c: ForkedChain, snippet: SnippetChain) returns (ok: bool)
    requires pool.Valid() && pool.Has(c) && snippet.tailHeight + 1 in snippet.heightBlocks
    modifies snippet, c
    ensures pool.Valid() && pool.Has(c)
    ensures var p, s, w := old(pool.View()), old(snippet.View()), old(snippet.heightBlocks[snippet.tailHeight + 1]);
            && c.chainId in p.chains && ok == Takes(p, c.chainId, w)
            && pool.View() == Insert(p, c.chainId, w)
            && snippet.View() == if ok then DropTail(s, w) else s
  {
    assert pool.View().chains[c.chainId] == c.View();
    var w := snippet.heightBlocks[snippet.tailHeight + 1];
    ok := pool.InsertBlock(c, w);
    if ok {
      snippet.DeleteTail(w);
    }
  }
}
