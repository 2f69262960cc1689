/** With one block per height the order in which blocks come does not matter: nothing is dropped, and
    the snippets that are left are the same. */
module SnippetOrder {
  import opened Blocks
  import opened ForkTree
  import opened PoolSteps
  import opened SnippetAssembly

  ghost predicate OnePerHeight(all: set<Block>) {
    forall b, c | b in all && c in all && b.height == c.height :: b == c
  }

  // ---------------------------------------------------------------- nothing is dropped

  ghost predicate Among(vs: seq<Snippet>, pending: seq<Block>, b: Block) {
    Somewhere(vs, b) || b in pending
  }

  /** No two blocks, loose or in a snippet, have the same height. */
  ghost predicate OneEach(vs: seq<Snippet>, pending: seq<Block>) {
    forall b, c | Among(vs, pending, b) && Among(vs, pending, c) && b.height == c.height :: b == c
  }

  lemma NotCovered(u: set<Block>, vs: seq<Snippet>, w: Block)
    requires Pieces(u, vs) && !Somewhere(vs, w) && forall b | Somewhere(vs, b) :: b.height != w.height
    ensures !OfferAt(vs, w, 0).Covered?
  {
    var o := OfferAt(vs, w, 0);
    if o.Covered? {
      var s := vs[o.at];
      assert Contains(s, s.blocks[w.height]);
      assert false;
    }
  }

  /** One turn moves a block from the pending ones into the snippets. */
  lemma TurnKeepsAmong(u: set<Block>, vs: seq<Snippet>, pending: seq<Block>)
    requires Universe(u) && Pieces(u, vs) && NewBlocks(u, vs, pending) && OneEach(vs, pending) && pending != []
    ensures forall b :: Among(Add(vs, pending[0]), pending[1..], b) <==> Among(vs, pending, b)
  {
    var w, rest := pending[0], pending[1..];
    assert Among(vs, pending, w) && !Somewhere(vs, w);
    forall b | Somewhere(vs, b) ensures b.height != w.height { assert Among(vs, pending, b); }
    NotCovered(u, vs, w);
    AddKeeps(u, vs, w);
    assert forall b :: b in pending <==> b == w || b in rest;
  }

  /** Gathering loses no block, whatever the order. */
  lemma {:induction false} NothingIsDropped(u: set<Block>, vs: seq<Snippet>, pending: seq<Block>)
    requires Universe(u) && Pieces(u, vs) && NewBlocks(u, vs, pending) && OneEach(vs, pending)
    ensures forall b :: Somewhere(Gather(vs, pending), b) <==> Among(vs, pending, b)
    decreases |pending|
  {
    if pending != [] {
      OneGathered(u, vs, pending);
      TurnKeepsAmong(u, vs, pending);
      NothingIsDropped(u, Add(vs, pending[0]), pending[1..]);
    }
  }

  // ---------------------------------------------------------------- one table

  type Snippets = map<Hash, Snippet>

  predicate Has(t: Snippets, h: Hash, b: Block) {
    h in t && Contains(t[h], b)
  }

  ghost predicate HasSome(t: Snippets, b: Block) {
    exists h :: Has(t, h, b)
  }

  ghost predicate Entry(u: set<Block>, t: Snippets, h: Hash)
    requires h in t
  {
    Piece(u, t[h]) && t[h].headHash == h && t[h].tailHash !in t
  }

  /** Complete snippets under their own head hashes, none ending where another begins, that hold the
      blocks, each in one. */
  ghost predicate Assembles(u: set<Block>, t: Snippets, all: set<Block>) {
    && (forall h {:trigger Entry(u, t, h)} | h in t :: Entry(u, t, h))
    && (forall h, b {:trigger Has(t, h, b)} | Has(t, h, b) :: b in all)
    && (forall b {:trigger HasSome(t, b)} | b in all :: HasSome(t, b))
    && (forall h, g, b {:trigger Has(t, h, b), Has(t, g, b)} | Has(t, h, b) && Has(t, g, b) :: h == g)
  }

  /** In different snippets, the parent ends one and the child begins the other. */
  lemma PartedAtEnds(u: set<Block>, t: Snippets, all: set<Block>, h: Hash, b: Block, g: Hash, c: Block)
    requires OnePerHeight(all) && Assembles(u, t, all) && Has(t, h, b) && Has(t, g, c) && h != g && c.height == b.height + 1
    ensures t[g].tail == b.height == t[h].head
  {
    assert Entry(u, t, h) && Entry(u, t, g);
    if t[g].tail < b.height { assert Has(t, g, t[g].blocks[b.height]); }
    if b.height < t[h].head { assert Has(t, h, t[h].blocks[c.height]); }
  }

  /** A block goes with its parent. */
  lemma ChildGoesAlong(u: set<Block>, t: Snippets, all: set<Block>, h: Hash, b: Block, c: Block)
    requires Universe(u) && all <= u && OnePerHeight(all) && Assembles(u, t, all)
    requires Has(t, h, b) && c in all && c.preHash == b.hash
    ensures Has(t, h, c)
  {
    assert b in all && c.height == b.height + 1 && HasSome(t, c);
    var g :| Has(t, g, c);
    assert Entry(u, t, g) && Entry(u, t, h);
    if g != h { PartedAtEnds(u, t, all, h, b, g, c); }
  }

  lemma ParentGoesAlong(u: set<Block>, t: Snippets, all: set<Block>, h: Hash, b: Block, d: Block)
    requires Universe(u) && all <= u && OnePerHeight(all) && Assembles(u, t, all)
    requires Has(t, h, b) && d in all && b.preHash == d.hash
    ensures Has(t, h, d)
  {
    assert b in all && HasSome(t, d);
    var g :| Has(t, g, d);
    ChildGoesAlong(u, t, all, g, d, b);
  }

  /** Nothing the blocks hold follows a snippet's head. */
  lemma NothingFollows(u: set<Block>, t: Snippets, all: set<Block>, h: Hash, c: Block)
    requires Universe(u) && all <= u && OnePerHeight(all) && Assembles(u, t, all) && h in t && c in all
    ensures Entry(u, t, h) && c.preHash != t[h].blocks[t[h].head].hash
  {
    assert Entry(u, t, h);
    var b := t[h].blocks[t[h].head];
    assert Has(t, h, b);
    if c.preHash == b.hash { ChildGoesAlong(u, t, all, h, b, c); }
  }

  /** A snippet's head block heads the snippet that holds it in the other table. */
  lemma HeadsAgree(u: set<Block>, t: Snippets, t': Snippets, all: set<Block>, h: Hash)
    requires Universe(u) && all <= u && OnePerHeight(all) && Assembles(u, t, all) && Assembles(u, t', all) && h in t
    ensures Entry(u, t, h) && h in t' && Entry(u, t', h) && t'[h].head == t[h].head
    ensures t'[h].blocks[t'[h].head] == t[h].blocks[t[h].head]
  {
    assert Entry(u, t, h);
    var b := t[h].blocks[t[h].head];
    assert Has(t, h, b);
    assert HasSome(t', b);
    var g :| Has(t', g, b);
    assert Entry(u, t', g);
    var o := t'[g];
    if b.height < o.head {
      var c := o.blocks[b.height + 1];
      assert LinkAt(o.blocks, b.height + 1) && Has(t', g, c);
      NothingFollows(u, t, all, h, c);
    }
  }

  /** From there down the blocks are the same. */
  lemma {:induction false} BlocksAgree(u: set<Block>, t: Snippets, t': Snippets, all: set<Block>, h: Hash, k: int)
    requires Universe(u) && all <= u && OnePerHeight(all) && Assembles(u, t, all) && Assembles(u, t', all) && h in t
    requires t[h].tail < k <= t[h].head
    ensures Entry(u, t, h) && h in t' && k in t'[h].blocks && t'[h].blocks[k] == t[h].blocks[k]
    decreases t[h].head - k
  {
    HeadsAgree(u, t, t', all, h);
    if k < t[h].head {
      BlocksAgree(u, t, t', all, h, k + 1);
      var s := t[h];
      assert LinkAt(s.blocks, k + 1) && Has(t, h, s.blocks[k]) && Has(t', h, s.blocks[k + 1]);
      ParentGoesAlong(u, t', all, h, s.blocks[k + 1], s.blocks[k]);
    }
  }

  lemma SnippetsAgree(u: set<Block>, t: Snippets, t': Snippets, all: set<Block>, h: Hash)
    requires Universe(u) && all <= u && OnePerHeight(all) && Assembles(u, t, all) && Assembles(u, t', all) && h in t
    ensures h in t' && t'[h] == t[h]
  {
    HeadsAgree(u, t, t', all, h);
    HeadsAgree(u, t', t, all, h);
    forall k | t[h].tail < k <= t[h].head
      ensures k in t'[h].blocks && t'[h].blocks[k] == t[h].blocks[k]
    {
      BlocksAgree(u, t, t', all, h, k);
    }
    forall k | t'[h].tail < k <= t'[h].head
      ensures k in t[h].blocks && t[h].blocks[k] == t'[h].blocks[k]
    {
      BlocksAgree(u, t', t, all, h, k);
    }
    SameSnippet(t[h], t'[h]);
  }

  lemma SameSnippet(s: Snippet, o: Snippet)
    requires SnippetOk(s) && SnippetOk(o) && s.tail < s.head == o.head && o.tail < o.head && s.headHash == o.headHash
    requires forall k | s.tail < k <= s.head :: k in o.blocks && o.blocks[k] == s.blocks[k]
    requires forall k | o.tail < k <= o.head :: k in s.blocks && s.blocks[k] == o.blocks[k]
    ensures s == o
  {
    assert s.tail + 1 in o.blocks && o.tail + 1 in s.blocks;
    assert s.tail == o.tail;
    forall k: int ensures k in s.blocks.Keys <==> k in o.blocks.Keys { assert k in s.blocks <==> s.tail < k <= s.head; }
    forall k | k in s.blocks ensures s.blocks[k] == o.blocks[k] { assert s.tail < k <= s.head; }
    assert s.blocks == o.blocks;
  }

  /** There is only one way to assemble the blocks. */
  lemma OneAssembly(u: set<Block>, t: Snippets, t': Snippets, all: set<Block>)
    requires Universe(u) && all <= u && OnePerHeight(all) && Assembles(u, t, all) && Assembles(u, t', all)
    ensures t == t'
  {
    forall h | h in t ensures h in t' && t'[h] == t[h] { SnippetsAgree(u, t, t', all, h); }
    forall h | h in t' ensures h in t { SnippetsAgree(u, t', t, all, h); }
  }

  // ---------------------------------------------------------------- the whole pass

  /** What the table holds. */
  ghost function Left(now: seq<Snippet>, heads: map<Hash, nat>): Snippets
    requires forall h | h in heads :: heads[h] < |now|
  {
    map h | h in heads :: now[heads[h]]
  }

  lemma LeftAssembles(u: set<Block>, vs: seq<Snippet>, pending: seq<Block>, now: seq<Snippet>, heads: map<Hash, nat>, all: set<Block>)
    requires Assembled(u, vs, pending, now, heads)
    requires forall b :: b in all <==> Somewhere(Gather(vs, pending), b)
    ensures Assembles(u, Left(now, heads), all)
  {
    var t := Left(now, heads);
    forall b | b in all
      ensures HasSome(t, b)
    {
      var h :| h in heads && Contains(now[heads[h]], b);
      assert Has(t, h, b);
    }
  }

  /** With no two blocks at one height, a pass over the pending blocks leaves the same snippets
      whatever order they come in. */
  lemma OrderDoesNotMatter(u: set<Block>, vs: seq<Snippet>, pending: seq<Block>, pending': seq<Block>,
                           now: seq<Snippet>, heads: map<Hash, nat>, now': seq<Snippet>, heads': map<Hash, nat>)
    requires Universe(u) && Pieces(u, vs) && NewBlocks(u, vs, pending) && NewBlocks(u, vs, pending')
    requires OneEach(vs, pending) && forall b :: b in pending <==> b in pending'
    requires Assembled(u, vs, pending, now, heads) && Assembled(u, vs, pending', now', heads')
    ensures Left(now, heads) == Left(now', heads')
  {
    NothingIsDropped(u, vs, pending);
    assert forall b :: Among(vs, pending, b) <==> Among(vs, pending', b);
    NothingIsDropped(u, vs, pending');
    GatherKeeps(u, vs, pending);
    var all := AllBlocks(Gather(vs, pending));
    AllBlocksAre(u, Gather(vs, pending));
    LeftAssembles(u, vs, pending, now, heads, all);
    LeftAssembles(u, vs, pending', now', heads', all);
    forall b, c | b in all && c in all && b.height == c.height
      ensures b == c
    {
      assert Among(vs, pending, b) && Among(vs, pending, c);
    }
    GatheredInUniverse(u, Gather(vs, pending));
    OneAssembly(u, Left(now, heads), Left(now', heads'), all);
  }

  lemma GatheredInUniverse(u: set<Block>, vs: seq<Snippet>)
    requires Pieces(u, vs)
    ensures AllBlocks(vs) <= u
  {
  }
}
