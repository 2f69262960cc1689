/** The snapshot chain over the block store: two maps and a head key that together stand for one
    hash-linked sequence of blocks from genesis to the head. */
module SnapshotChains {
  import opened Blocks
  import opened Stores

  datatype Snaps = Snaps(
    byHeight: map<int, SnapBlock>, byHash: map<Hash, SnapBlock>, head: Option<SnapBlock>, headKey: Option<HashHeight>)

  function KeyOf(b: SnapBlock): HashHeight {
    HashHeight(b.hash, b.height)
  }

  /** `insertChain`, which checks nothing. */
  function Inserted(s: Snaps, b: SnapBlock): Snaps {
    Snaps(s.byHeight[b.height := b], s.byHash[b.hash := b], Some(b), Some(KeyOf(b)))
  }

  /** `removeChain`: the new head is looked up by the hash of the block below. */
  function Removed(s: Snaps, b: SnapBlock): Snaps {
    var head := if b.preHash in s.byHash then Some(s.byHash[b.preHash]) else None;
    Snaps(s.byHeight - {b.height}, s.byHash - {b.hash}, head, if head.None? then None else Some(KeyOf(head.value)))
  }

  // ---------------------------------------------------------------- the sequence behind the maps

  /** Numbered from 0, linked by hash, every hash different, and nothing below the first block. */
  ghost predicate Linked(c: seq<SnapBlock>) {
    && (forall i | 0 <= i < |c| :: c[i].height == i)
    && (forall i | 0 < i < |c| :: c[i].preHash == c[i - 1].hash)
    && (forall i, j | 0 <= i < j < |c| :: c[i].hash != c[j].hash)
    && (forall i | 0 <= i < |c| :: c[0].preHash != c[i].hash)
  }

  ghost predicate HasHash(c: seq<SnapBlock>, h: Hash) {
    exists i :: 0 <= i < |c| && c[i].hash == h
  }

  ghost predicate ByHeights(m: map<int, SnapBlock>, c: seq<SnapBlock>) {
    && (forall h :: h in m <==> 0 <= h < |c|)
    && (forall i | 0 <= i < |c| :: m[i] == c[i])
  }

  ghost predicate ByHashes(m: map<Hash, SnapBlock>, c: seq<SnapBlock>) {
    && (forall h {:trigger HasHash(c, h)} :: h in m <==> HasHash(c, h))
    && (forall i | 0 <= i < |c| :: c[i].hash in m && m[c[i].hash] == c[i])
  }

  function Last(c: seq<SnapBlock>): Option<SnapBlock> {
    if c == [] then None else Some(c[|c| - 1])
  }

  function KeyOfLast(c: seq<SnapBlock>): Option<HashHeight> {
    if c == [] then None else Some(KeyOf(c[|c| - 1]))
  }

  ghost predicate Describes(s: Snaps, c: seq<SnapBlock>) {
    Linked(c) && ByHeights(s.byHeight, c) && ByHashes(s.byHash, c) && s.head == Last(c) && s.headKey == KeyOfLast(c)
  }

  /** The block continues the sequence. */
  ghost predicate Fits(c: seq<SnapBlock>, b: SnapBlock) {
    && b.height == |c| && (c != [] ==> b.preHash == c[|c| - 1].hash && c[0].preHash != b.hash)
    && (c == [] ==> b.preHash != b.hash) && forall i | 0 <= i < |c| :: c[i].hash != b.hash
  }

  lemma LinkedExactly(c: seq<SnapBlock>, b: SnapBlock)
    requires Linked(c)
    ensures Linked(c + [b]) <==> Fits(c, b)
  {
    var n, c' := |c|, c + [b];
    assert c'[n] == b && forall i | 0 <= i < n :: c'[i] == c[i];
    if Linked(c') && n > 0 { assert c'[n].preHash == c'[n - 1].hash; }
  }

  lemma HashesExtend(m: map<Hash, SnapBlock>, c: seq<SnapBlock>, b: SnapBlock)
    requires ByHashes(m, c) && forall i | 0 <= i < |c| :: c[i].hash != b.hash
    ensures ByHashes(m[b.hash := b], c + [b])
  {
    var c' := c + [b];
    assert c'[|c|] == b;
    forall h
      ensures HasHash(c', h) <==> HasHash(c, h) || h == b.hash
    {
      if i :| 0 <= i < |c| && c[i].hash == h { assert c'[i].hash == h; }
    }
  }

  lemma HashesShrink(m: map<Hash, SnapBlock>, c: seq<SnapBlock>)
    requires ByHashes(m, c) && c != [] && Linked(c)
    ensures ByHashes(m - {c[|c| - 1].hash}, c[..|c| - 1])
  {
    var n := |c| - 1;
    var c' := c[..n];
    forall h
      ensures HasHash(c', h) <==> HasHash(c, h) && h != c[n].hash
    {
      if i :| 0 <= i < |c| && c[i].hash == h && i != n { assert c'[i].hash == h; }
      if i :| 0 <= i < n && c'[i].hash == h { assert c[i].hash == h; }
    }
  }

  lemma NothingStored(byHeight: map<int, SnapBlock>, byHash: map<Hash, SnapBlock>)
    requires ByHeights(byHeight, []) && ByHashes(byHash, [])
    ensures byHeight == map[] && byHash == map[]
  {
    forall h ensures h !in byHash { assert !HasHash([], h); }
    assert byHash.Keys == {};
    forall h: int ensures h !in byHeight.Keys { assert h !in byHeight; }
    assert byHeight.Keys == {};
  }

  /** Inserting extends the sequence exactly when the block fits on top. */
  lemma InsertExtendsExactly(s: Snaps, c: seq<SnapBlock>, b: SnapBlock)
    requires Describes(s, c)
    ensures Describes(Inserted(s, b), c + [b]) <==> Fits(c, b)
  {
    LinkedExactly(c, b);
    if Fits(c, b) { HashesExtend(s.byHash, c, b); }
  }

  lemma LinkedPrefix(c: seq<SnapBlock>)
    requires Linked(c) && c != []
    ensures Linked(c[..|c| - 1])
    ensures forall i | 0 <= i < |c| :: |c| == 1 ==> c[|c| - 1].preHash != c[i].hash
  {
  }

  /** Removing the head takes the last block off the sequence. */
  lemma RemoveShortens(s: Snaps, c: seq<SnapBlock>)
    requires Describes(s, c) && c != []
    ensures Describes(Removed(s, c[|c| - 1]), c[..|c| - 1])
  {
    LinkedPrefix(c);
    HashesShrink(s.byHash, c);
    var b := c[|c| - 1];
    if |c| > 1 {
      assert b.preHash == c[|c| - 2].hash;
    } else {
      assert !HasHash(c, b.preHash);
    }
  }

  datatype SnapOp = Put(block: SnapBlock) | Drop

  /** The sequence after the operations; a block that does not fit is not offered. */
  ghost function Content(g: SnapBlock, ops: seq<SnapOp>): seq<SnapBlock> {
    if ops == [] then [g]
    else
      var c := Content(g, ops[..|ops| - 1]);
      match ops[|ops| - 1]
      case Put(b) => if Fits(c, b) then c + [b] else c
      case Drop => if c == [] then c else c[..|c| - 1]
  }

  ghost function StoreAfter(g: SnapBlock, ops: seq<SnapOp>): Snaps {
    if ops == [] then Snaps(map[0 := g], map[g.hash := g], Some(g), Some(KeyOf(g)))
    else
      var s, c := StoreAfter(g, ops[..|ops| - 1]), Content(g, ops[..|ops| - 1]);
      match ops[|ops| - 1]
      case Put(b) => if Fits(c, b) then Inserted(s, b) else s
      case Drop => if s.head.None? then s else Removed(s, s.head.value)
  }

  lemma GenesisDescribes(g: SnapBlock)
    requires g.height == 0 && g.preHash != g.hash
    ensures Linked([g]) && ByHashes(map[g.hash := g], [g])
  {
    forall h ensures HasHash([g], h) <==> h == g.hash { if h == g.hash { assert [g][0].hash == h; } }
  }

  /** After any run from genesis the maps and the head describe one linked sequence. */
  lemma {:induction false} EveryRunDescribes(g: SnapBlock, ops: seq<SnapOp>)
    requires g.height == 0 && g.preHash != g.hash
    ensures Describes(StoreAfter(g, ops), Content(g, ops))
  {
    if ops == [] {
      GenesisDescribes(g);
    } else {
      var before := ops[..|ops| - 1];
      EveryRunDescribes(g, before);
      var s, c := StoreAfter(g, before), Content(g, before);
      match ops[|ops| - 1]
      case Put(b) => InsertExtendsExactly(s, c, b);
      case Drop => if c != [] { RemoveShortens(s, c); }
    }
  }

  // ---------------------------------------------------------------- the class

  class SnapshotChain {
    const store: BlockStore
    var head: Option<SnapBlock>
    ghost var chain: seq<SnapBlock>

    ghost function View(): Snaps
      reads this, store
    {
      Snaps(store.snapshotHeight, store.snapshotHash, head, SavedHead(store.head))
    }

    ghost predicate Valid()
      reads this, store
    {
      Describes(View(), chain)
    }

    /** `newSnapshotChain`: an empty store gets the genesis block; a store that was used before gives
        back the head it was left with; a store with another genesis block is refused. */
    constructor (s: BlockStore, g: SnapBlock, ghost stored: seq<SnapBlock>)
      requires g.height == 0 && g.preHash != g.hash
      requires Describes(Snaps(s.snapshotHeight, s.snapshotHash, Last(stored), SavedHead(s.head)), stored)
      modifies s
      ensures store == s
      ensures (stored != [] && stored[0].hash != g.hash) || Valid()
      ensures Valid() ==> chain == if stored == [] then [g] else stored
      ensures head.None? <==> stored != [] && stored[0].hash != g.hash
    {
      store := s;
      chain := if stored == [] then [g] else stored;
      head := None;
      new;
      if SNAPSHOT_HEAD_KEY !in s.head {
        head := Some(g);
        NothingStored(s.snapshotHeight, s.snapshotHash);
        s.snapshotHash := s.snapshotHash[g.hash := g];
        s.snapshotHeight := s.snapshotHeight[g.height := g];
        s.SetHead(SNAPSHOT_HEAD_KEY, Some(KeyOf(g)));
        GenesisDescribes(g);
      } else if s.snapshotHeight[g.height].hash == g.hash {
        head := Some(s.snapshotHeight[s.head[SNAPSHOT_HEAD_KEY].height]);
      }
    }

    /** `insertChain`, which asks nothing of the block and never fails. The maps go on describing one
        sequence exactly when the block fits on top. */
    method InsertChain(b: SnapBlock)
      requires Valid()
      modifies this, store
      ensures View() == Inserted(old(View()), b) && chain == old(chain) + [b]
      ensures Valid() <==> Fits(old(chain), b)
    {
      InsertExtendsExactly(View(), chain, b);
      store.snapshotHash := store.snapshotHash[b.hash := b];
      store.snapshotHeight := store.snapshotHeight[b.height := b];
      head := Some(b);
      store.SetHead(SNAPSHOT_HEAD_KEY, Some(KeyOf(b)));
      chain := chain + [b];
    }

    /** `removeChain`, which asks nothing of the block and never fails. */
    method RemoveChain(b: SnapBlock)
      requires Valid()
      modifies this, store
      ensures View() == Removed(old(View()), b)
      ensures old(head) == Some(b) ==> Valid() && chain == old(chain)[..|old(chain)| - 1]
    {
      if chain != [] { RemoveShortens(View(), chain); }
      head := if b.preHash in store.snapshotHash then Some(store.snapshotHash[b.preHash]) else None;
      store.snapshotHeight := store.snapshotHeight - {b.height};
      store.snapshotHash := store.snapshotHash - {b.hash};
      store.SetHead(SNAPSHOT_HEAD_KEY, if head.None? then None else Some(KeyOf(head.value)));
      chain := if chain == [] then [] else chain[..|chain| - 1];
    }
  }

  function SavedHead(heads: map<string, HashHeight>): Option<HashHeight> {
    if SNAPSHOT_HEAD_KEY in heads then Some(heads[SNAPSHOT_HEAD_KEY]) else None
  }
}
