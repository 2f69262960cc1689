/** Gluing loose blocks into snippets: `loopGenSnippetChains`.

    Each pending block goes to the low end of a snippet that is waiting for it, or is dropped as
    already covered, or starts a snippet of its own. Then snippets are joined end to end through a
    table from head hash to snippet. */
module SnippetAssembly {
  import opened Blocks
  import opened ForkTree
  import opened PoolSteps
  import opened SnippetChains

  /** A hash names one block and a block stands one above its parent. */
  ghost predicate Universe(u: set<Block>) {
    && HashIdentifies(u)
    && forall a, b | a in u && b in u && a.preHash == b.hash :: a.height == b.height + 1
  }

  /** A non-empty snippet of blocks of the universe. */
  ghost predicate Piece(u: set<Block>, s: Snippet) {
    SnippetOk(s) && s.tail < s.head && forall h | h in s.blocks :: s.blocks[h] in u
  }

  predicate Contains(s: Snippet, b: Block) {
    b.height in s.blocks && s.blocks[b.height] == b
  }

  // ---------------------------------------------------------------- one block

  /** `addTail`. */
  function AddTail(s: Snippet, w: Block): Snippet {
    s.(tailHash := w.preHash, tail := w.height - 1, blocks := s.blocks[w.height := w])
  }

  function Single(w: Block): Snippet {
    Snippet(w.height - 1, w.preHash, w.height, w.hash, map[w.height := w])
  }

  lemma SingleIsPiece(u: set<Block>, w: Block)
    requires w in u && w.height >= 0
    ensures Piece(u, Single(w)) && forall b :: Contains(Single(w), b) <==> b == w
  {
  }

  /** A block whose hash a snippet waits for extends it downwards. */
  lemma AddTailIsPiece(u: set<Block>, s: Snippet, w: Block)
    requires Universe(u) && Piece(u, s) && w in u && w.height >= 0 && s.tailHash == w.hash
    ensures w.height == s.tail && Piece(u, AddTail(s, w))
    ensures forall b :: Contains(AddTail(s, w), b) <==> Contains(s, b) || b == w
  {
    var r := AddTail(s, w);
    assert s.blocks[s.tail + 1] in u;
    assert forall h :: h in r.blocks <==> r.tail < h <= r.head;
    forall h ensures LinkAt(r.blocks, h) { assert LinkAt(s.blocks, h); }
  }

  // ---------------------------------------------------------------- joining two snippets

  /** `merge`: `s` takes over all of `o`. */
  function Merged(s: Snippet, o: Snippet): Snippet {
    s.(tail := o.tail, tailHash := o.tailHash, blocks := s.blocks + o.blocks)
  }

  lemma ChildIsAbove(u: set<Block>, a: Block, b: Block)
    requires Universe(u) && a in u && b in u && a.preHash == b.hash
    ensures a.height == b.height + 1
  {
  }

  lemma MergedIsPiece(u: set<Block>, s: Snippet, o: Snippet)
    requires Universe(u) && Piece(u, s) && Piece(u, o) && s.tailHash == o.headHash
    ensures s.tail == o.head && Piece(u, Merged(s, o))
    ensures forall b :: Contains(Merged(s, o), b) <==> Contains(s, b) || Contains(o, b)
  {
    ChildIsAbove(u, s.blocks[s.tail + 1], o.blocks[o.head]);
    MergedBlocks(s, o);
    assert forall h | h in Merged(s, o).blocks :: h in s.blocks || h in o.blocks;
  }

  lemma MergedBlocks(s: Snippet, o: Snippet)
    requires SnippetOk(s) && SnippetOk(o) && s.tail < s.head && o.tail < o.head
    requires s.tail == o.head && s.tailHash == o.headHash
    ensures SnippetOk(Merged(s, o))
    ensures forall b :: Contains(Merged(s, o), b) <==> Contains(s, b) || Contains(o, b)
  {
    var r := Merged(s, o);
    assert forall h :: h in r.blocks <==> r.tail < h <= r.head;
    forall h ensures LinkAt(r.blocks, h) { assert LinkAt(s.blocks, h) && LinkAt(o.blocks, h); }
  }

  /** No snippet waits for its own head. */
  lemma NotItsOwnTail(u: set<Block>, s: Snippet)
    requires Universe(u) && Piece(u, s)
    ensures s.tailHash != s.headHash
  {
    assert s.blocks[s.tail + 1] in u && s.blocks[s.head] in u;
  }

  // ---------------------------------------------------------------- the joining phase

  /** Position i of the list stands for the i-th snippet object; `heads` maps a head hash to the
      position of the snippet that has it. */
  ghost predicate Table(vs: seq<Snippet>, heads: map<Hash, nat>) {
    forall h | h in heads :: heads[h] < |vs| && vs[heads[h]].headHash == h
  }

  /** Snippet i has its place in the table. */
  ghost predicate Live(vs: seq<Snippet>, heads: map<Hash, nat>, i: nat)
    requires i < |vs|
  {
    vs[i].headHash in heads && heads[vs[i].headHash] == i
  }

  ghost predicate HeldBy(vs: seq<Snippet>, heads: map<Hash, nat>, h: Hash, b: Block)
    requires Table(vs, heads)
  {
    h in heads && Contains(vs[heads[h]], b)
  }

  /** The snippets in the table hold exactly the blocks `all`, each in one of them. */
  ghost predicate Partition(vs: seq<Snippet>, heads: map<Hash, nat>, all: set<Block>)
    requires Table(vs, heads)
  {
    && (forall h, b | HeldBy(vs, heads, h, b) :: b in all)
    && (forall b | b in all :: exists h :: HeldBy(vs, heads, h, b))
    && (forall h, h', b | HeldBy(vs, heads, h, b) && HeldBy(vs, heads, h', b) :: h == h')
  }

  /** A snippet that has had its turn, or has been taken over, waits for nothing in the table;
      once snippet `i` has joined another it may wait for what snippet `i` waits for. */
  ghost predicate Settled(vs: seq<Snippet>, heads: map<Hash, nat>, i: nat, joined: bool)
    requires Table(vs, heads) && (joined ==> i < |vs|)
  {
    forall j | 0 <= j < |vs| && (j < i || !Live(vs, heads, j)) ::
      vs[j].tailHash !in heads || (joined && vs[j].tailHash == vs[i].tailHash)
  }

  ghost predicate Joining(u: set<Block>, vs: seq<Snippet>, heads: map<Hash, nat>, all: set<Block>, i: nat, joined: bool) {
    && Universe(u) && (forall j | 0 <= j < |vs| :: Piece(u, vs[j]))
    && Table(vs, heads) && Partition(vs, heads, all)
    && i <= |vs| && (joined ==> i < |vs| && Live(vs, heads, i)) && Settled(vs, heads, i, joined)
  }

  lemma JoinPartition(vs: seq<Snippet>, heads: map<Hash, nat>, vs': seq<Snippet>, t: Hash, g: Hash, all: set<Block>)
    requires Table(vs, heads) && Table(vs', heads - {t}) && Partition(vs, heads, all)
    requires t in heads && g in heads && g != t
    requires forall h, b :: HeldBy(vs', heads - {t}, h, b) <==>
               h != t && (HeldBy(vs, heads, h, b) || (h == g && HeldBy(vs, heads, t, b)))
    ensures Partition(vs', heads - {t}, all)
  {
    forall b | b in all
      ensures exists h :: HeldBy(vs', heads - {t}, h, b)
    {
      var h :| HeldBy(vs, heads, h, b);
      assert HeldBy(vs', heads - {t}, if h == t then g else h, b);
    }
  }

  lemma JoinTable(vs: seq<Snippet>, heads: map<Hash, nat>, i: nat)
    requires Table(vs, heads) && i < |vs| && Live(vs, heads, i) && vs[i].tailHash in heads
    requires var s, o := vs[i], vs[heads[vs[i].tailHash]];
             s.tailHash != s.headHash && forall b :: Contains(Merged(s, o), b) <==> Contains(s, b) || Contains(o, b)
    ensures var t, g := vs[i].tailHash, vs[i].headHash;
            var vs', heads' := vs[i := Merged(vs[i], vs[heads[t]])], heads - {t};
            && Table(vs', heads')
            && forall h, b :: HeldBy(vs', heads', h, b) <==>
                 h != t && (HeldBy(vs, heads, h, b) || (h == g && HeldBy(vs, heads, t, b)))
  {
  }

  /** One join in turn `i`. */
  lemma JoinKeeps(u: set<Block>, vs: seq<Snippet>, heads: map<Hash, nat>, all: set<Block>, i: nat, joined: bool)
    requires Joining(u, vs, heads, all, i, joined) && i < |vs| && vs[i].tailHash in heads
    ensures var t := vs[i].tailHash;
            && heads[t] < |vs| && heads[t] != i
            && Joining(u, vs[i := Merged(vs[i], vs[heads[t]])], heads - {t}, all, i, true)
  {
    var s, t := vs[i], vs[i].tailHash;
    var o := vs[heads[t]];
    NotItsOwnTail(u, s);
    assert Live(vs, heads, i);
    MergedIsPiece(u, s, o);
    var vs', heads' := vs[i := Merged(s, o)], heads - {t};
    JoinTable(vs, heads, i);
    JoinPartition(vs, heads, vs', t, s.headHash, all);
    JoinSettled(vs, heads, vs', i, joined);
  }

  lemma JoinSettled(vs: seq<Snippet>, heads: map<Hash, nat>, vs': seq<Snippet>, i: nat, joined: bool)
    requires Table(vs, heads) && i < |vs| && Live(vs, heads, i) && Settled(vs, heads, i, joined)
    requires var t := vs[i].tailHash;
             t in heads && heads[t] != i && vs' == vs[i := Merged(vs[i], vs[heads[t]])] && Table(vs', heads - {t})
    ensures Live(vs', heads - {vs[i].tailHash}, i) && Settled(vs', heads - {vs[i].tailHash}, i, true)
  {
    var t := vs[i].tailHash;
    var heads' := heads - {t};
    forall j | 0 <= j < |vs'| && (j < i || !Live(vs', heads', j))
      ensures vs'[j].tailHash !in heads' || vs'[j].tailHash == vs'[i].tailHash
    {
      if j != i && j != heads[t] { assert j < i || !Live(vs, heads, j); }
    }
  }

  /** A turn ends when nothing in the table is what the snippet waits for. */
  lemma TurnEnds(u: set<Block>, vs: seq<Snippet>, heads: map<Hash, nat>, all: set<Block>, i: nat, joined: bool)
    requires Joining(u, vs, heads, all, i, joined) && i < |vs| && vs[i].tailHash !in heads
    ensures Joining(u, vs, heads, all, i + 1, false)
  {
    forall j | 0 <= j < |vs| && (j < i + 1 || !Live(vs, heads, j))
      ensures vs[j].tailHash !in heads
    {
      if j != i { assert j < i || !Live(vs, heads, j); }
    }
  }

  /** At the end nothing in the table waits for anything in the table. */
  lemma JoinedUp(u: set<Block>, vs: seq<Snippet>, heads: map<Hash, nat>, all: set<Block>)
    requires Joining(u, vs, heads, all, |vs|, false)
    ensures forall h | h in heads :: vs[heads[h]].tailHash !in heads
  {
  }

  // ---------------------------------------------------------------- the gathering phase

  datatype Offer = Extend(at: nat) | Covered(at: nat) | New

  /** `tryInsert`, from position `i` on: the first snippet that waits for the block, or whose
      range already covers its height. */
  function OfferAt(vs: seq<Snippet>, w: Block, i: nat): (o: Offer)
    requires i <= |vs|
    ensures !o.New? ==> i <= o.at < |vs|
    ensures o.Extend? ==> vs[o.at].tailHash == w.hash
    ensures o.Covered? ==> vs[o.at].tail < w.height < vs[o.at].head
    decreases |vs| - i
  {
    if i == |vs| then New
    else if vs[i].tailHash == w.hash then Extend(i)
    else if vs[i].head > w.height && w.height > vs[i].tail then Covered(i)
    else OfferAt(vs, w, i + 1)
  }

  function Add(vs: seq<Snippet>, w: Block): seq<Snippet> {
    match OfferAt(vs, w, 0)
    case Extend(i) => vs[i := AddTail(vs[i], w)]
    case Covered(i) => vs
    case New => vs + [Single(w)]
  }

  function Gather(vs: seq<Snippet>, pending: seq<Block>): seq<Snippet>
    decreases |pending|
  {
    if pending == [] then vs else Gather(Add(vs, pending[0]), pending[1..])
  }

  ghost predicate Somewhere(vs: seq<Snippet>, b: Block) {
    exists i :: 0 <= i < |vs| && Contains(vs[i], b)
  }

  /** Well-formed snippets, no block in two of them. */
  ghost predicate Pieces(u: set<Block>, vs: seq<Snippet>) {
    && (forall i | 0 <= i < |vs| :: Piece(u, vs[i]))
    && forall i, j, b | 0 <= i < |vs| && 0 <= j < |vs| && Contains(vs[i], b) && Contains(vs[j], b) :: i == j
  }

  /** Snippet `i` replaced by one that holds `w` as well. */
  lemma GrowPieces(u: set<Block>, vs: seq<Snippet>, i: nat, r: Snippet, w: Block)
    requires Pieces(u, vs) && i < |vs| && !Somewhere(vs, w) && Piece(u, r)
    requires forall b :: Contains(r, b) <==> Contains(vs[i], b) || b == w
    ensures Pieces(u, vs[i := r])
    ensures forall b :: Somewhere(vs[i := r], b) <==> Somewhere(vs, b) || b == w
  {
    var vs' := vs[i := r];
    forall k, b | 0 <= k < |vs|
      ensures Contains(vs'[k], b) <==> Contains(vs[k], b) || (k == i && b == w)
    {
    }
    assert Contains(vs'[i], w);
    forall b | Somewhere(vs, b)
      ensures Somewhere(vs', b)
    {
      var k :| 0 <= k < |vs| && Contains(vs[k], b);
      assert Contains(vs'[k], b);
    }
  }

  /** One more snippet, of `w` alone. */
  lemma AppendPiece(u: set<Block>, vs: seq<Snippet>, w: Block)
    requires Pieces(u, vs) && !Somewhere(vs, w) && Piece(u, Single(w))
    requires forall b :: Contains(Single(w), b) <==> b == w
    ensures Pieces(u, vs + [Single(w)])
    ensures forall b :: Somewhere(vs + [Single(w)], b) <==> Somewhere(vs, b) || b == w
  {
    var vs' := vs + [Single(w)];
    assert Contains(vs'[|vs|], w);
    forall b | Somewhere(vs, b)
      ensures Somewhere(vs', b)
    {
      var k :| 0 <= k < |vs| && Contains(vs[k], b);
      assert Contains(vs'[k], b);
    }
  }

  lemma AddKeeps(u: set<Block>, vs: seq<Snippet>, w: Block)
    requires Universe(u) && Pieces(u, vs) && w in u && w.height >= 0 && !Somewhere(vs, w)
    ensures Pieces(u, Add(vs, w))
    ensures forall b :: Somewhere(Add(vs, w), b) <==> Somewhere(vs, b) || (b == w && !OfferAt(vs, w, 0).Covered?)
  {
    match OfferAt(vs, w, 0)
    case Extend(i) =>
      AddTailIsPiece(u, vs[i], w);
      GrowPieces(u, vs, i, AddTail(vs[i], w), w);
    case Covered(i) =>
    case New =>
      SingleIsPiece(u, w);
      AppendPiece(u, vs, w);
  }

  /** The pending blocks are new to the pool and to each other. */
  ghost predicate NewBlocks(u: set<Block>, vs: seq<Snippet>, pending: seq<Block>) {
    && (forall i | 0 <= i < |pending| :: pending[i] in u && pending[i].height >= 0 && !Somewhere(vs, pending[i]))
    && forall i, j | 0 <= i < j < |pending| :: pending[i] != pending[j]
  }

  /** In any order of the pending blocks, gathering keeps every snippet gap-free, hash-linked and
      apart from the others; no block is lost that was in a snippet, and none comes from elsewhere. */
  lemma {:induction false} GatherKeeps(u: set<Block>, vs: seq<Snippet>, pending: seq<Block>)
    requires Universe(u) && Pieces(u, vs) && NewBlocks(u, vs, pending)
    ensures Pieces(u, Gather(vs, pending))
    ensures forall b | Somewhere(vs, b) :: Somewhere(Gather(vs, pending), b)
    ensures forall b | Somewhere(Gather(vs, pending), b) :: Somewhere(vs, b) || b in pending
    decreases |pending|
  {
    if pending != [] {
      var w, rest := pending[0], pending[1..];
      AddKeeps(u, vs, w);
      assert NewBlocks(u, Add(vs, w), rest);
      GatherKeeps(u, Add(vs, w), rest);
    }
  }

  /** A snippet's range covers the block's height, below its head, and neither it nor a snippet before
      it waits for the block. */
  predicate CoveredBy(vs: seq<Snippet>, w: Block, i: int) {
    && 0 <= i < |vs| && vs[i].tail < w.height < vs[i].head
    && forall j | 0 <= j <= i :: vs[j].tailHash != w.hash
  }

  lemma {:induction false} OfferExactly(vs: seq<Snippet>, w: Block, i: nat)
    requires i <= |vs| && forall j | 0 <= j < i :: vs[j].tailHash != w.hash && !(vs[j].tail < w.height < vs[j].head)
    ensures OfferAt(vs, w, i).Covered? <==> exists k :: CoveredBy(vs, w, k)
    ensures OfferAt(vs, w, i).New? <==> forall j | 0 <= j < |vs| :: vs[j].tailHash != w.hash && !(vs[j].tail < w.height < vs[j].head)
    decreases |vs| - i
  {
    if i < |vs| {
      if vs[i].tailHash == w.hash {
        forall k ensures !CoveredBy(vs, w, k) { if k >= i { assert k < |vs| ==> vs[i].tailHash == w.hash; } }
      } else if vs[i].tail < w.height < vs[i].head {
        assert CoveredBy(vs, w, i);
      } else {
        OfferExactly(vs, w, i + 1);
      }
    }
  }

  /** A pending block fails to reach a snippet exactly when, at its turn, its height lies inside
      one before any snippet that waits for it. */
  lemma GatherDropsExactly(u: set<Block>, vs: seq<Snippet>, pending: seq<Block>, k: nat)
    requires Universe(u) && Pieces(u, vs) && NewBlocks(u, vs, pending) && k < |pending|
    ensures Somewhere(Gather(vs, pending), pending[k])
       <==> !exists i :: CoveredBy(Gather(vs, pending[..k]), pending[k], i)
  {
    DroppedAtOffer(u, vs, pending, k);
    OfferExactly(Gather(vs, pending[..k]), pending[k], 0);
  }

  lemma {:induction false} DroppedAtOffer(u: set<Block>, vs: seq<Snippet>, pending: seq<Block>, k: nat)
    requires Universe(u) && Pieces(u, vs) && NewBlocks(u, vs, pending) && k < |pending|
    ensures Somewhere(Gather(vs, pending), pending[k])
       <==> !OfferAt(Gather(vs, pending[..k]), pending[k], 0).Covered?
    decreases |pending|
  {
    var w, rest := pending[0], pending[1..];
    OneGathered(u, vs, pending);
    if k > 0 {
      GatherFirst(vs, pending, k);
      DroppedAtOffer(u, Add(vs, w), rest, k - 1);
    } else {
      assert pending[..0] == [];
    }
  }

  /** Two blocks that follow each other, and a third beside the lower one: the third is dropped. */
  lemma TwinIsDropped(a3: Block, a2: Block, b2: Block)
    requires a3.height == 3 && a2.height == b2.height == 2 && a3.preHash == a2.hash
    requires b2.hash != a2.hash && b2.hash != a2.preHash
    ensures Gather([], [a3, a2, b2]) == [AddTail(Single(a3), a2)]
    ensures !Somewhere(Gather([], [a3, a2, b2]), b2)
  {
    var vs := [AddTail(Single(a3), a2)];
    assert Add([], a3) == [Single(a3)] && [a3, a2, b2][1..] == [a2, b2];
    assert Add([Single(a3)], a2) == vs && [a2, b2][1..] == [b2];
    assert OfferAt(vs, b2, 0) == Covered(0) && Add(vs, b2) == vs && [b2][1..] == [];
    assert Gather([], [a3, a2, b2]) == Gather([Single(a3)], [a2, b2]) == Gather(vs, [b2]) == Gather(vs, []) == vs;
    assert !Contains(vs[0], b2);
  }

  lemma GatherFirst(vs: seq<Snippet>, pending: seq<Block>, k: nat)
    requires 0 < k <= |pending|
    ensures Gather(vs, pending[..k]) == Gather(Add(vs, pending[0]), pending[1..][..k - 1])
  {
    assert pending[..k][0] == pending[0] && pending[..k][1..] == pending[1..][..k - 1];
  }

  /** The first pending block: what is decided at its turn is final. */
  lemma OneGathered(u: set<Block>, vs: seq<Snippet>, pending: seq<Block>)
    requires Universe(u) && Pieces(u, vs) && NewBlocks(u, vs, pending) && pending != []
    ensures Pieces(u, Add(vs, pending[0])) && NewBlocks(u, Add(vs, pending[0]), pending[1..])
    ensures Somewhere(Gather(vs, pending), pending[0]) <==> !OfferAt(vs, pending[0], 0).Covered?
  {
    var w, rest := pending[0], pending[1..];
    AddKeeps(u, vs, w);
    assert NewBlocks(u, Add(vs, w), rest);
    GatherKeeps(u, Add(vs, w), rest);
    assert w !in rest;
    assert Gather(vs, pending) == Gather(Add(vs, w), rest);
  }

  /** Snippets without a common block have different heads. */
  lemma DistinctHeads(u: set<Block>, vs: seq<Snippet>, i: nat, j: nat)
    requires Universe(u) && Pieces(u, vs) && i < |vs| && j < |vs| && vs[i].headHash == vs[j].headHash
    ensures i == j
  {
    var a, b := vs[i].blocks[vs[i].head], vs[j].blocks[vs[j].head];
    assert a in u && b in u && a.hash == b.hash;
    assert Contains(vs[i], a) && Contains(vs[j], b);
  }

  // ---------------------------------------------------------------- the phases put together

  /** `splitToMap`. */
  ghost predicate Split(vs: seq<Snippet>, heads: map<Hash, nat>) {
    && Table(vs, heads)
    && forall i | 0 <= i < |vs| :: vs[i].headHash in heads && heads[vs[i].headHash] == i
  }

  ghost predicate BlocksAre(vs: seq<Snippet>, all: set<Block>) {
    forall b :: b in all <==> Somewhere(vs, b)
  }

  lemma JoiningStarts(u: set<Block>, vs: seq<Snippet>, heads: map<Hash, nat>, all: set<Block>)
    requires Universe(u) && Pieces(u, vs) && Split(vs, heads) && BlocksAre(vs, all)
    ensures Joining(u, vs, heads, all, 0, false)
  {
    forall b | b in all
      ensures exists h :: HeldBy(vs, heads, h, b)
    {
      var i :| 0 <= i < |vs| && Contains(vs[i], b);
      assert HeldBy(vs, heads, vs[i].headHash, b);
    }
    forall h, h', b | HeldBy(vs, heads, h, b) && HeldBy(vs, heads, h', b)
      ensures h == h'
    {
      assert heads[h] == heads[h'];
    }
    assert forall j | 0 <= j < |vs| :: Live(vs, heads, j);
    forall h, b | HeldBy(vs, heads, h, b)
      ensures b in all
    {
      assert Contains(vs[heads[h]], b);
    }
  }

  ghost function AllBlocks(vs: seq<Snippet>): set<Block> {
    set i, h | 0 <= i < |vs| && h in vs[i].blocks :: vs[i].blocks[h]
  }

  lemma AllBlocksAre(u: set<Block>, vs: seq<Snippet>)
    requires Pieces(u, vs)
    ensures BlocksAre(vs, AllBlocks(vs))
  {
    forall b
      ensures b in AllBlocks(vs) <==> Somewhere(vs, b)
    {
      if i :| 0 <= i < |vs| && Contains(vs[i], b) { assert vs[i].blocks[b.height] == b; }
      if b in AllBlocks(vs) {
        var i, h :| 0 <= i < |vs| && h in vs[i].blocks && vs[i].blocks[h] == b;
        assert Contains(vs[i], b);
      }
    }
  }

  // ---------------------------------------------------------------- the loops over snippet objects

  /** The objects of the list are different, and `vs` is what they hold. */
  ghost predicate Mirrors(chains: seq<SnippetChain>, vs: seq<Snippet>)
    reads chains
  {
    && |chains| == |vs| && (forall j | 0 <= j < |vs| :: chains[j].View() == vs[j])
    && forall i, j | 0 <= i < j < |chains| :: chains[i] != chains[j]
  }

  /** `tryInsert`. */
  method TryInsert(chains: seq<SnippetChain>, w: Block, ghost vs: seq<Snippet>) returns (inserted: bool)
    requires Mirrors(chains, vs)
    modifies chains
    ensures inserted <==> !OfferAt(vs, w, 0).New?
    ensures Mirrors(chains, if inserted then Add(vs, w) else vs)
  {
    var i := 0;
    while i < |chains|
      invariant i <= |chains| && Mirrors(chains, vs) && OfferAt(vs, w, i) == OfferAt(vs, w, 0)
    {
      assert chains[i].View() == vs[i];
      if chains[i].tailHash == w.hash {
        chains[i].AddTail(w);
        return true;
      }
      if chains[i].headHeight > w.height && w.height > chains[i].tailHeight {
        return true;
      }
      i := i + 1;
    }
    inserted := false;
  }

  method StartSnippet(chains: seq<SnippetChain>, w: Block, id: Id, ghost vs: seq<Snippet>)
    returns (more: seq<SnippetChain>)
    requires Mirrors(chains, vs)
    ensures Mirrors(more, vs + [Single(w)])
    ensures |more| == |chains| + 1 && more[..|chains|] == chains && fresh(more[|chains|])
  {
    var snippet := new SnippetChain(id, w);
    more := chains + [snippet];
  }

  /** One turn of the first half of `loopGenSnippetChains`. */
  method GatherOne(chains: seq<SnippetChain>, w: Block, id: Id, ghost vs: seq<Snippet>)
    returns (more: seq<SnippetChain>, nextId: Id)
    requires Mirrors(chains, vs)
    modifies chains
    ensures Mirrors(more, Add(vs, w))
    ensures forall j | 0 <= j < |more| :: more[j] in chains || fresh(more[j])
  {
    more, nextId := chains, id;
    var inserted := TryInsert(chains, w, vs);
    if !inserted {
      more := StartSnippet(chains, w, id, vs);
      nextId := id + 1;
    }
  }

  /** The first half of `loopGenSnippetChains`. New snippets take ids from `lastId` on. */
  method GatherAll(snippets: seq<SnippetChain>, pending: seq<Block>, lastId: Id, ghost vs: seq<Snippet>)
    returns (chains: seq<SnippetChain>)
    requires Mirrors(snippets, vs)
    modifies snippets
    ensures Mirrors(chains, Gather(vs, pending))
    ensures forall j | 0 <= j < |chains| :: chains[j] in snippets || fresh(chains[j])
  {
    chains := snippets;
    ghost var now := vs;
    var nextId: Id := lastId + 1;
    for k := 0 to |pending|
      invariant Mirrors(chains, now) && Gather(now, pending[k..]) == Gather(vs, pending)
      invariant forall j | 0 <= j < |chains| :: chains[j] in snippets || fresh(chains[j])
    {
      var w := pending[k];
      assert pending[k..][0] == w && pending[k..][1..] == pending[k + 1..];
      chains, nextId := GatherOne(chains, w, nextId, now);
      now := Add(now, w);
    }
    assert pending[|pending|..] == [];
  }

  /** `splitToMap`. */
  method SplitToMap(chains: seq<SnippetChain>, ghost vs: seq<Snippet>, ghost u: set<Block>) returns (heads: map<Hash, nat>)
    requires Mirrors(chains, vs) && Universe(u) && Pieces(u, vs)
    ensures Split(vs, heads)
  {
    heads := map[];
    for k := 0 to |chains|
      invariant Table(vs, heads)
      invariant forall i | 0 <= i < k :: vs[i].headHash in heads && heads[vs[i].headHash] == i
    {
      assert chains[k].View() == vs[k];
      forall i | 0 <= i < k && vs[i].headHash == vs[k].headHash
        ensures false
      {
        DistinctHeads(u, vs, i, k);
      }
      heads := heads[chains[k].headHash := k];
    }
  }

  /** The second half of `loopGenSnippetChains`: each join takes one entry out of the table. */
  method JoinAll(chains: seq<SnippetChain>, split: map<Hash, nat>, ghost vs0: seq<Snippet>, ghost u: set<Block>)
    returns (heads: map<Hash, nat>, ghost vs: seq<Snippet>)
    requires Mirrors(chains, vs0) && Universe(u) && Pieces(u, vs0) && Split(vs0, split)
    modifies chains
    ensures Mirrors(chains, vs) && Joining(u, vs, heads, AllBlocks(vs0), |vs|, false)
  {
    heads, vs := split, vs0;
    ghost var all := AllBlocks(vs0);
    AllBlocksAre(u, vs0);
    JoiningStarts(u, vs, heads, all);
    for i := 0 to |chains|
      invariant Mirrors(chains, vs) && Joining(u, vs, heads, all, i, false)
    {
      heads, vs := JoinTurn(chains, heads, i, vs, u, all);
    }
  }

  method MergeInto(chains: seq<SnippetChain>, i: nat, oc: nat, ghost vs: seq<Snippet>)
    requires Mirrors(chains, vs) && i < |vs| && oc < |vs|
    modifies chains[i]
    ensures Mirrors(chains, vs[i := Merged(vs[i], vs[oc])])
  {
    assert chains[i].View() == vs[i] && chains[oc].View() == vs[oc];
    chains[i].Merge(chains[oc]);
  }

  /** The inner loop: snippet `i` takes over whatever ends where it begins. */
  method JoinTurn(chains: seq<SnippetChain>, table: map<Hash, nat>, i: nat,
                  ghost vs0: seq<Snippet>, ghost u: set<Block>, ghost all: set<Block>)
    returns (heads: map<Hash, nat>, ghost vs: seq<Snippet>)
    requires Mirrors(chains, vs0) && i < |chains| && Joining(u, vs0, table, all, i, false)
    modifies chains
    ensures Mirrors(chains, vs) && Joining(u, vs, heads, all, i + 1, false)
  {
    heads, vs := table, vs0;
    ghost var joined := false;
    while chains[i].tailHash in heads && heads[chains[i].tailHash] != i
      invariant Mirrors(chains, vs) && Joining(u, vs, heads, all, i, joined)
      decreases |heads|
    {
      var tail := chains[i].tailHash;
      assert chains[i].View() == vs[i];
      var oc := heads[tail];
      JoinKeeps(u, vs, heads, all, i, joined);
      MergeInto(chains, i, oc, vs);
      heads, vs := heads - {tail}, vs[i := Merged(vs[i], vs[oc])];
      joined := true;
    }
    assert chains[i].View() == vs[i];
    NothingLeftToJoin(u, vs, heads, all, i, joined);
    TurnEnds(u, vs, heads, all, i, joined);
  }

  lemma NothingLeftToJoin(u: set<Block>, vs: seq<Snippet>, heads: map<Hash, nat>, all: set<Block>, i: nat, joined: bool)
    requires Joining(u, vs, heads, all, i, joined) && i < |vs|
    requires vs[i].tailHash in heads ==> heads[vs[i].tailHash] == i
    ensures vs[i].tailHash !in heads
  {
    NotItsOwnTail(u, vs[i]);
  }

  /** `loopGenSnippetChains`: the snippets left are `chains[heads[h]]` for the hashes `h` of the
      table. */
  method LoopGenSnippetChains(snippets: seq<SnippetChain>, pending: seq<Block>, lastId: Id,
                              ghost vs: seq<Snippet>, ghost u: set<Block>)
    returns (chains: seq<SnippetChain>, heads: map<Hash, nat>, ghost now: seq<Snippet>)
    requires Mirrors(snippets, vs) && Universe(u) && Pieces(u, vs) && NewBlocks(u, vs, pending)
    modifies snippets
    ensures Mirrors(chains, now) && Assembled(u, vs, pending, now, heads)
  {
    ghost var gathered := Gather(vs, pending);
    assert Pieces(u, gathered) by { GatherKeeps(u, vs, pending); }
    chains := GatherAll(snippets, pending, lastId, vs);
    heads := SplitToMap(chains, gathered, u);
    heads, now := JoinAll(chains, heads, gathered, u);
    assert Assembled(u, vs, pending, now, heads) by { AssemblyMeans(u, vs, pending, now, heads); }
  }

  /** What the whole pass achieves. */
  ghost predicate Assembled(u: set<Block>, vs: seq<Snippet>, pending: seq<Block>, now: seq<Snippet>, heads: map<Hash, nat>) {
    // every snippet left is gap-free and hash-linked, and the table knows it by its own head
    && (forall h | h in heads :: heads[h] < |now| && Piece(u, now[heads[h]]) && now[heads[h]].headHash == h)
    // none of them ends where another begins
    && (forall h | h in heads :: now[heads[h]].tailHash !in heads)
    // the gathered blocks are in them, each in one, and nothing else is
    && (forall h, b | h in heads && Contains(now[heads[h]], b) :: Somewhere(Gather(vs, pending), b))
    && (forall b | Somewhere(Gather(vs, pending), b) :: exists h :: h in heads && Contains(now[heads[h]], b))
    && (forall h, h', b | h in heads && h' in heads && Contains(now[heads[h]], b) && Contains(now[heads[h']], b) :: h == h')
  }

  lemma AssemblyMeans(u: set<Block>, vs: seq<Snippet>, pending: seq<Block>, now: seq<Snippet>, heads: map<Hash, nat>)
    requires Universe(u) && Pieces(u, Gather(vs, pending))
    requires Joining(u, now, heads, AllBlocks(Gather(vs, pending)), |now|, false)
    ensures Assembled(u, vs, pending, now, heads)
  {
    var gathered := Gather(vs, pending);
    AllBlocksAre(u, gathered);
    JoinedUp(u, now, heads, AllBlocks(gathered));
    forall h, b | h in heads && Contains(now[heads[h]], b)
      ensures Somewhere(gathered, b)
    {
      assert HeldBy(now, heads, h, b);
    }
    forall b | Somewhere(gathered, b)
      ensures exists h :: h in heads && Contains(now[heads[h]], b)
    {
      var h :| HeldBy(now, heads, h, b);
    }
    forall h, h', b | h in heads && h' in heads && Contains(now[heads[h]], b) && Contains(now[heads[h']], b)
      ensures h == h'
    {
      assert HeldBy(now, heads, h, b) && HeldBy(now, heads, h', b);
    }
  }
}
