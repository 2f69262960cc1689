/** What `loopAppendChains` does with its snippets, told from the verdicts: which chains grow by which
    blocks, which chains are new, and what is held at the end. */
module Placing {
  import opened Blocks
  import opened ForkTree
  import opened Rerooting
  import opened PoolSteps
  import opened PoolMachine
  import opened PoolRuns
  import opened ForkSwitch
  import opened Attach
  import opened AppendLoop
  import opened Verdicts

  // ---------------------------------------------------------------- one turn

  /** The rest goes on the chain: by height always, by hash where the chain's head is what it stands on. */
  predicate GoesOn(p: Pool, c: Id, r: Snippet)
    requires c in p.chains
  {
    r.tailHash == p.chains[c].headHash
  }

  /** What the verdict does to the pool: the chain appended to is extended by exactly the rest; a fork
      is a new chain on its parent that holds exactly the rest; otherwise nothing changes. */
  ghost predicate Turned(p: Pool, r: Snippet, v: Placement, q: Pool) {
    match v
    case Append(c) =>
      && c in p.chains
      && var f := p.chains[c];
         q == if GoesOn(p, c, r) then
                p.(chains := p.chains[c := f.(head := r.head, headHash := r.headHash, blocks := f.blocks + r.blocks)])
              else p
    case ForkFrom(c) =>
      && p.lastId + 1 !in p.chains
      && q == p.(lastId := p.lastId + 1,
                 chains := p.chains[p.lastId + 1 := Forked(r.tail, "", r.head, r.headHash, r.blocks, Chain(c))])
    case Known => q == p
    case Unplaced => q == p
    case NilHead => q == p
  }

  /** The rest has found its place. */
  predicate Settles(p: Pool, r: Snippet, v: Placement) {
    v.ForkFrom? || v.Known? || (v.Append? && v.chain in p.chains && GoesOn(p, v.chain, r))
  }

  /** The chains offered next: a new fork is offered from then on. */
  function OfferedNext(p: Pool, order: seq<Id>, v: Placement): seq<Id> {
    if v.ForkFrom? then order + [p.lastId + 1] else order
  }

  /** A chain takes all of a rest that begins at its head, or none of it. */
  lemma InsertSnippetExactly(p: Pool, c: Id, r: Snippet)
    requires c in p.chains && SnippetOk(r) && r.tail < r.head && r.tail == p.chains[c].head
    ensures if GoesOn(p, c, r) then
              && InsertSnippet(p, c, r).ok && InsertSnippet(p, c, r).rest.tail == InsertSnippet(p, c, r).rest.head
              && InsertSnippet(p, c, r).pool
                 == p.(chains := p.chains[c := p.chains[c].(head := r.head, headHash := r.headHash,
                                                            blocks := p.chains[c].blocks + r.blocks)])
            else InsertSnippet(p, c, r) == Inserted(p, r, false)
  {
    InsertSnippetStep(p, c, r);
    if GoesOn(p, c, r) { InsertSnippetAppends(p, c, r); }
  }

  ghost predicate AppendsAtHead(p: Pool, r: Snippet, v: Placement) {
    SnippetOk(r) && (v.Append? ==> v.chain in p.chains && r.tail == p.chains[v.chain].head && r.tail < r.head)
  }

  lemma ForkyAppendsAtHead(p: Pool, s: Snippet, order: seq<Id>)
    requires Inv(p) && SnippetOk(s) && s.tail < s.head && HashIdentifies(Held(p) + BlocksOf(s))
    requires forall c | c in order :: c in p.chains
    ensures AppendsAtHead(p, Forky(p, s, order).0, Forky(p, s, order).1)
  {
    ForkyMeans(p, s, order);
  }

  lemma ActTurns(p: Pool, r: Snippet, v: Placement)
    requires p.lastId + 1 !in p.chains && AppendsAtHead(p, r, v)
    ensures Turned(p, r, v, Act(p, r, v))
    ensures Unsettled(p, r, v) == if Settles(p, r, v) then [] else [r]
  {
    if v.Append? { InsertSnippetExactly(p, v.chain, r); }
  }

  /** One turn of the loop does to pool, table and chains offered what the verdict says. */
  lemma PlaceExactly(p: Pool, s: Snippet, order: seq<Id>, r: Snippet, v: Placement)
    requires Inv(p) && SnippetOk(s) && s.tail < s.head && HashIdentifies(Held(p) + BlocksOf(s))
    requires (forall c | c in order :: c in p.chains) && Verdict(p, s, order, r, v)
    ensures Turned(p, r, v, Place(p, s, order)) && NextOrder(p, s, order) == OfferedNext(p, order, v)
    ensures LeftOver(p, s, order) == if Settles(p, r, v) then [] else [r]
  {
    ForkyExactly(p, s, order, r, v);
    ForkyAppendsAtHead(p, s, order);
    NewIdIsFresh(p);
    ActTurns(p, r, v);
  }

  // ---------------------------------------------------------------- what is held in memory

  /** The blocks the chains hold themselves. */
  ghost function InMemory(p: Pool): set<Block> {
    set id, h | id in p.chains && h in p.chains[id].blocks :: p.chains[id].blocks[h]
  }

  /** The blocks a turn puts in memory. */
  ghost function Gained(p: Pool, r: Snippet, v: Placement): set<Block> {
    if v.ForkFrom? || (v.Append? && v.chain in p.chains && GoesOn(p, v.chain, r)) then BlocksOf(r) else {}
  }

  /** Nothing is overwritten. */
  lemma GrownMemory(p: Pool, c: Id, r: Snippet, q: Pool)
    requires c in p.chains && q.chains.Keys == p.chains.Keys && forall i | i in p.chains && i != c :: q.chains[i] == p.chains[i]
    requires q.chains[c].blocks == p.chains[c].blocks + r.blocks && p.chains[c].blocks.Keys !! r.blocks.Keys
    ensures InMemory(q) == InMemory(p) + BlocksOf(r)
  {
    forall b | b in InMemory(p)
      ensures b in InMemory(q)
    {
      var i, h :| i in p.chains && h in p.chains[i].blocks && p.chains[i].blocks[h] == b;
      assert h in q.chains[i].blocks && q.chains[i].blocks[h] == b;
    }
    forall b | b in BlocksOf(r)
      ensures b in InMemory(q)
    {
      var h :| h in r.blocks && r.blocks[h] == b;
      assert h in q.chains[c].blocks && q.chains[c].blocks[h] == b;
    }
    forall b | b in InMemory(q)
      ensures b in InMemory(p) + BlocksOf(r)
    {
      var i, h :| i in q.chains && h in q.chains[i].blocks && q.chains[i].blocks[h] == b;
      if i != c || h in p.chains[i].blocks { assert h in p.chains[i].blocks && p.chains[i].blocks[h] == b; }
    }
  }

  lemma ForkedMemory(p: Pool, id: Id, f: Forked, r: Snippet, q: Pool)
    requires id !in p.chains && q.chains == p.chains[id := f] && f.blocks == r.blocks
    ensures InMemory(q) == InMemory(p) + BlocksOf(r)
  {
    forall b | b in InMemory(p)
      ensures b in InMemory(q)
    {
      var i, h :| i in p.chains && h in p.chains[i].blocks && p.chains[i].blocks[h] == b;
      assert i in q.chains && h in q.chains[i].blocks && q.chains[i].blocks[h] == b;
    }
    forall b | b in BlocksOf(r)
      ensures b in InMemory(q)
    {
      var h :| h in r.blocks && r.blocks[h] == b;
      assert h in q.chains[id].blocks && q.chains[id].blocks[h] == b;
    }
    forall b | b in InMemory(q)
      ensures b in InMemory(p) + BlocksOf(r)
    {
      var i, h :| i in q.chains && h in q.chains[i].blocks && q.chains[i].blocks[h] == b;
      if i != id { assert i in p.chains && h in p.chains[i].blocks && p.chains[i].blocks[h] == b; }
    }
  }

  /** A turn adds to memory exactly the rest it places. */
  lemma TurnMemory(p: Pool, s: Snippet, r: Snippet, v: Placement, q: Pool)
    requires TreeOk(p) && SnippetOk(r) && Turned(p, r, v, q)
    requires v.Append? ==> v.chain in p.chains && r.tail == p.chains[v.chain].head
    ensures InMemory(q) == InMemory(p) + Gained(p, r, v) && q.disk == p.disk
  {
    if v.ForkFrom? {
      ForkedMemory(p, p.lastId + 1, Forked(r.tail, "", r.head, r.headHash, r.blocks, Chain(v.parent)), r, q);
    } else if v.Append? && GoesOn(p, v.chain, r) {
      assert ChainOk(p, v.chain);
      forall h: int ensures !(h in p.chains[v.chain].blocks.Keys && h in r.blocks.Keys) { }
      GrownMemory(p, v.chain, r, q);
    }
  }

  // ---------------------------------------------------------------- the whole loop

  /** The loop, turn by turn: each snippet gets its verdict over the pool and the chains offered that
      the turns before left; `gained` is what the turns have put in memory. */
  ghost predicate Loops(p: Pool, snippets: seq<Snippet>, order: seq<Id>, out: Appended, gained: set<Block>)
    requires Inv(p) && forall c | c in order :: c in p.chains
    decreases |snippets|
  {
    if snippets == [] then out == Appended(p, [], false) && gained == {}
    else exists r, v, q, after, more :: LoopsOnce(p, snippets, order, out, gained, r, v, q, after, more)
  }

  ghost predicate LoopsOnce(p: Pool, snippets: seq<Snippet>, order: seq<Id>, out: Appended, gained: set<Block>,
                            r: Snippet, v: Placement, q: Pool, after: Appended, more: set<Block>)
    requires Inv(p) && (forall c | c in order :: c in p.chains) && snippets != []
    decreases |snippets|, 0
  {
    && Verdict(p, snippets[0], order, r, v)
    && if v.NilHead? then out == Appended(p, [r] + snippets[1..], true) && gained == {}
       else
         && Turned(p, r, v, q) && Inv(q) && (forall c | c in OfferedNext(p, order, v) :: c in q.chains)
         && Loops(q, snippets[1..], OfferedNext(p, order, v), after, more)
         && out == Appended(after.pool, (if Settles(p, r, v) then [] else [r]) + after.left, after.crashed)
         && gained == Gained(p, r, v) + more
  }

  /** What the loop puts in memory. */
  ghost function GainedAll(p: Pool, snippets: seq<Snippet>, order: seq<Id>): set<Block>
    requires Inv(p) && (forall c | c in order :: c in p.chains) && forall s | s in snippets :: SnippetOk(s)
    decreases |snippets|
  {
    if snippets == [] then {}
    else
      assert snippets[0] in snippets;
      var (r, v) := Forky(p, snippets[0], order);
      if v.NilHead? then {}
      else
        PlaceKeepsOffered(p, snippets[0], order);
        Gained(p, r, v) + GainedAll(Place(p, snippets[0], order), snippets[1..], NextOrder(p, snippets[0], order))
  }

  /** Complete snippets out of a universe in which hashes name blocks. */
  ghost predicate From(u: set<Block>, s: Snippet) {
    SnippetOk(s) && s.tail < s.head && BlocksOf(s) <= u
  }

  lemma RestIsFrom(u: set<Block>, s: Snippet, r: Snippet, t: int)
    requires From(u, s) && Rest(s, r, t)
    ensures BlocksOf(r) <= BlocksOf(s)
  {
    forall h | h in r.blocks ensures h in s.blocks && s.blocks[h] == r.blocks[h] { }
  }

  lemma VerdictLeavesRest(p: Pool, s: Snippet, order: seq<Id>, r: Snippet, v: Placement)
    requires Acyclic(p) && p.current in p.chains && (forall c | c in order :: c in p.chains) && SnippetOk(s)
    requires Verdict(p, s, order, r, v)
    ensures Rest(s, r, r.tail)
  {
    WholeIsRest(s);
  }

  lemma TurnHolds(p: Pool, u: set<Block>, s: Snippet, order: seq<Id>, r: Snippet, v: Placement)
    requires Inv(p) && From(u, s) && Held(p) <= u && HashIdentifies(u)
    requires (forall c | c in order :: c in p.chains) && Verdict(p, s, order, r, v)
    ensures HashIdentifies(Held(p) + BlocksOf(s)) && Held(Place(p, s, order)) <= u
  {
    PlaceExactly(p, s, order, r, v);
    VerdictLeavesRest(p, s, order, r, v);
    RestIsFrom(u, s, r, r.tail);
    ForkyExactly(p, s, order, r, v);
    ForkyMeans(p, s, order);
    TurnMemory(p, s, r, v, Place(p, s, order));
    HeldIsDiskAndMemory(p);
    HeldIsDiskAndMemory(Place(p, s, order));
  }

  lemma HeldIsDiskAndMemory(p: Pool)
    ensures Held(p) == (set i | 0 <= i < |p.disk| :: p.disk[i]) + InMemory(p)
  {
  }

  /** The code's loop goes as the verdicts say. */
  lemma {:induction false} AppendAllLoops(p: Pool, snippets: seq<Snippet>, order: seq<Id>, u: set<Block>)
    requires Inv(p) && (forall c | c in order :: c in p.chains)
    requires (forall s | s in snippets :: SnippetOk(s)) && (forall s | s in snippets :: From(u, s))
    requires Held(p) <= u && HashIdentifies(u)
    ensures Loops(p, snippets, order, AppendAll(p, snippets, order), GainedAll(p, snippets, order))
    decreases |snippets|
  {
    if snippets != [] {
      var s, rest := snippets[0], snippets[1..];
      assert s in snippets && From(u, s);
      assert HashIdentifies(Held(p) + BlocksOf(s));
      var (r, v) := Forky(p, s, order);
      ForkyGives(p, s, order);
      TurnHolds(p, u, s, order, r, v);
      PlaceExactly(p, s, order, r, v);
      PlaceKeepsOffered(p, s, order);
      var q, next := Place(p, s, order), NextOrder(p, s, order);
      AppendAllLoops(q, rest, next, u);
      assert LoopsOnce(p, snippets, order, AppendAll(p, snippets, order), GainedAll(p, snippets, order), r, v, q,
                       AppendAll(q, rest, next), GainedAll(q, rest, next));
    }
  }

  /** At its end memory holds what it held and what the turns placed; the disk is as it was. */
  lemma {:induction false} LoopsMemory(p: Pool, snippets: seq<Snippet>, order: seq<Id>, out: Appended, gained: set<Block>)
    requires Inv(p) && (forall c | c in order :: c in p.chains) && Loops(p, snippets, order, out, gained)
    requires forall s | s in snippets :: SnippetOk(s)
    ensures InMemory(out.pool) == InMemory(p) + gained && out.pool.disk == p.disk
    decreases |snippets|
  {
    if snippets != [] {
      assert snippets[0] in snippets;
      var r, v, q, after, more :| LoopsOnce(p, snippets, order, out, gained, r, v, q, after, more);
      if !v.NilHead? {
        RestIsOk(p, snippets[0], order, r, v);
        TurnMemory(p, snippets[0], r, v, q);
        LoopsMemory(q, snippets[1..], OfferedNext(p, order, v), after, more);
      }
    }
  }

  lemma RestIsOk(p: Pool, s: Snippet, order: seq<Id>, r: Snippet, v: Placement)
    requires Acyclic(p) && p.current in p.chains && (forall c | c in order :: c in p.chains) && SnippetOk(s)
    requires Verdict(p, s, order, r, v)
    ensures SnippetOk(r) && (v.Append? ==> v.chain in p.chains && r.tail == p.chains[v.chain].head)
  {
    VerdictLeavesRest(p, s, order, r, v);
    forall h ensures LinkAt(r.blocks, h) { assert LinkAt(s.blocks, h); }
    assert LinkAt(s.blocks, r.tail + 1);
  }

  // ---------------------------------------------------------------- nothing is lost

  ghost predicate AnyHolds(vs: seq<Snippet>, b: Block) {
    exists i :: 0 <= i < |vs| && b in BlocksOf(vs[i])
  }

  lemma TurnedHolds(p: Pool, s: Snippet, r: Snippet, v: Placement, q: Pool)
    requires TreeOk(p) && SnippetOk(r) && Turned(p, r, v, q)
    requires v.Append? ==> v.chain in p.chains && r.tail == p.chains[v.chain].head
    ensures Held(p) <= Held(q) && (Settles(p, r, v) && !v.Known? ==> BlocksOf(r) <= Held(q))
  {
    TurnMemory(p, s, r, v, q);
    HeldIsDiskAndMemory(p);
    HeldIsDiskAndMemory(q);
  }

  /** What a turn trims off a snippet is in the pool already, if the chains offered are complete. */
  lemma TrimmedIsHeld(p: Pool, s: Snippet, order: seq<Id>, b: Block)
    requires Inv(p) && SnippetOk(s) && s.tail < s.head && HashIdentifies(Held(p) + BlocksOf(s))
    requires (forall c | c in order :: c in p.chains && Sound(p, c)) && b in BlocksOf(s)
    ensures b in Held(p) || b in BlocksOf(Forky(p, s, order).0)
  {
    ForkyMeans(p, s, order);
    ForkyIsFit(p, s, order);
    var (r, v) := Forky(p, s, order);
    var h :| h in s.blocks && s.blocks[h] == b;
    if r.tail < h {
      assert r.blocks[h] == b;
    } else {
      var c := if v.Append? then v.chain else if v.ForkFrom? then v.parent else p.current;
      LookupIsHeld(p, Chain(c), h);
    }
  }

  /** One turn: a block of the snippet ends up in the pool or stays in the table. */
  lemma TurnLosesNothing(p: Pool, u: set<Block>, s: Snippet, order: seq<Id>, b: Block)
    requires Inv(p) && From(u, s) && Held(p) <= u && HashIdentifies(u)
    requires forall c | c in order :: c in p.chains && Sound(p, c)
    ensures Held(p) <= Held(Place(p, s, order))
    ensures b in BlocksOf(s) ==> b in Held(Place(p, s, order)) || AnyHolds(LeftOver(p, s, order), b)
  {
    assert HashIdentifies(Held(p) + BlocksOf(s));
    var (r, v) := Forky(p, s, order);
    ForkyGives(p, s, order);
    PlaceExactly(p, s, order, r, v);
    RestIsOk(p, s, order, r, v);
    TurnedHolds(p, s, r, v, Place(p, s, order));
    if b in BlocksOf(s) {
      TrimmedIsHeld(p, s, order, b);
      if !Settles(p, r, v) {
        assert LeftOver(p, s, order)[0] == r;
      } else if v.Known? {
        KnownIsEmpty(p, s, order, r);
      }
    }
  }

  lemma KnownIsEmpty(p: Pool, s: Snippet, order: seq<Id>, r: Snippet)
    requires Acyclic(p) && p.current in p.chains && (forall c | c in order :: c in p.chains) && SnippetOk(s)
    requires Verdict(p, s, order, r, Known)
    ensures BlocksOf(r) == {}
  {
  }

  lemma TurnKeepsComplete(p: Pool, s: Snippet, order: seq<Id>)
    requires Inv(p) && SnippetOk(s) && forall c | c in order :: c in p.chains && Sound(p, c)
    ensures Inv(Place(p, s, order))
    ensures forall c | c in NextOrder(p, s, order) :: c in Place(p, s, order).chains && Sound(Place(p, s, order), c)
  {
    CurrentIsSound(p);
    PlaceKeepsOffered(p, s, order);
    ForkyIsFit(p, s, order);
    var (r, v) := Forky(p, s, order);
    forall c | c in NextOrder(p, s, order)
      ensures Sound(Place(p, s, order), c)
    {
      if c in order { PlaceContinues(p, s, order, c); } else { ForkIsSound(p, v.parent, r); }
    }
  }

  /** Over complete chains the loop loses no block: at its end each is in the pool, or in a snippet that
      is left. */
  lemma {:induction false} NothingIsLost(p: Pool, snippets: seq<Snippet>, order: seq<Id>, u: set<Block>, b: Block)
    requires Inv(p) && (forall c | c in order :: c in p.chains) && (forall c | c in order :: Sound(p, c))
    requires (forall s | s in snippets :: SnippetOk(s)) && (forall s | s in snippets :: From(u, s))
    requires Held(p) <= u && HashIdentifies(u) && (b in Held(p) || AnyHolds(snippets, b))
    ensures b in Held(AppendAll(p, snippets, order).pool) || AnyHolds(AppendAll(p, snippets, order).left, b)
    decreases |snippets|
  {
    if snippets != [] {
      var s, rest := snippets[0], snippets[1..];
      assert s in snippets && From(u, s) && HashIdentifies(Held(p) + BlocksOf(s));
      var (r, v) := Forky(p, s, order);
      var q, next, over := Place(p, s, order), NextOrder(p, s, order), LeftOver(p, s, order);
      ForkyGives(p, s, order);
      TurnHolds(p, u, s, order, r, v);
      TurnLosesNothing(p, u, s, order, b);
      TurnKeepsComplete(p, s, order);
      if AnyHolds(snippets, b) && b !in BlocksOf(s) { HeldLater(snippets, b); }
      if v.NilHead? {
        PlaceExactly(p, s, order, r, v);
        HeldInParts(over, rest, b);
      } else if b in Held(q) || AnyHolds(rest, b) {
        NothingIsLost(q, rest, next, u, b);
        HeldInParts(over, AppendAll(q, rest, next).left, b);
      } else {
        HeldInParts(over, AppendAll(q, rest, next).left, b);
      }
    }
  }

  lemma HeldLater(vs: seq<Snippet>, b: Block)
    requires vs != [] && AnyHolds(vs, b) && b !in BlocksOf(vs[0])
    ensures AnyHolds(vs[1..], b)
  {
    var i :| 0 <= i < |vs| && b in BlocksOf(vs[i]);
    assert vs[1..][i - 1] == vs[i];
  }

  lemma HeldInParts(vs: seq<Snippet>, more: seq<Snippet>, b: Block)
    ensures AnyHolds(vs, b) || AnyHolds(more, b) ==> AnyHolds(vs + more, b)
  {
    if i :| 0 <= i < |vs| && b in BlocksOf(vs[i]) { assert (vs + more)[i] == vs[i]; }
    if i :| 0 <= i < |more| && b in BlocksOf(more[i]) { assert (vs + more)[|vs| + i] == more[i]; }
  }
}
