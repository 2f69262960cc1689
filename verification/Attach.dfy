/** Attaching a snippet to the tree: trim what a known chain already has, then append the rest
    to that chain or fork from it. */
module Attach {
  import opened Blocks
  import opened ForkTree
  import opened Rerooting
  import opened PoolSteps
  import opened PoolMachine
  import opened PoolRuns
  import opened ForkSwitch

  // ---------------------------------------------------------------- trimming

  /** `deleteTail`. */
  function DropTail(s: Snippet, b: Block): Snippet {
    s.(tail := b.height, tailHash := b.hash, blocks := s.blocks - {b.height})
  }

  lemma DropTailOk(s: Snippet)
    requires SnippetOk(s) && s.tail < s.head
    ensures s.tail + 1 in s.blocks && s.blocks[s.tail + 1].height == s.tail + 1
    ensures SnippetOk(DropTail(s, s.blocks[s.tail + 1]))
  {
    var d := s.blocks - {s.tail + 1};
    assert LinkAt(s.blocks, s.tail + 2);
    forall h ensures LinkAt(d, h) { assert LinkAt(s.blocks, h); }
  }

  /** `s'` is the upper part of `s`. */
  ghost predicate UpperPart(s: Snippet, s': Snippet) {
    && SnippetOk(s') && s.tail <= s'.tail && s'.head == s.head && s'.headHash == s.headHash
    && forall h | s'.tail < h <= s.head :: h in s.blocks && h in s'.blocks && s'.blocks[h] == s.blocks[h]
  }

  /** `cutSnippet`: drops at least one block, and goes on while below `height`. */
  function Cut(s: Snippet, height: int): (r: Snippet)
    requires SnippetOk(s)
    ensures SnippetOk(r)
    decreases s.head - s.tail
  {
    if s.tail == s.head then s
    else
      var b := s.blocks[s.tail + 1];
      DropTailOk(s);
      if b.height >= height then DropTail(s, b) else Cut(DropTail(s, b), height)
  }

  lemma {:induction false} CutMeans(s: Snippet, height: int)
    requires SnippetOk(s) && s.tail < height <= s.head
    ensures height in s.blocks && UpperPart(s, Cut(s, height))
    ensures Cut(s, height).tail == height && Cut(s, height).tailHash == s.blocks[height].hash
    decreases s.head - s.tail
  {
    DropTailOk(s);
    if s.tail + 1 < height { CutMeans(DropTail(s, s.blocks[s.tail + 1]), height); }
  }

  // ---------------------------------------------------------------- fork points

  /** What `findForkPoint` sees of a chain: all of it, or only its own blocks. */
  function Seen(p: Pool, c: Id, refer: bool, h: int): Option<Block>
    requires Acyclic(p) && c in p.chains
  {
    if refer then At(p, c, h)
    else if h in p.chains[c].blocks then Some(p.chains[c].blocks[h]) else None
  }

  /** The loop of `findForkPoint`: drop blocks the chain has; true if the chain then goes on
      differently. */
  function MatchUp(p: Pool, c: Id, refer: bool, s: Snippet): (r: (Snippet, bool))
    requires Acyclic(p) && c in p.chains && SnippetOk(s)
    ensures SnippetOk(r.0) && (r.1 ==> r.0.tail < r.0.head)
    decreases s.head - s.tail
  {
    if s.tail == s.head then (s, false)
    else
      var uncle, point := Seen(p, c, refer, s.tail + 1), s.blocks[s.tail + 1];
      if uncle.None? then (s, false)
      else if point.hash != uncle.value.hash then (s, true)
      else
        DropTailOk(s);
        MatchUp(p, c, refer, DropTail(s, point))
  }

  /** The chain has the snippet's tail. */
  predicate TailSeen(p: Pool, c: Id, refer: bool, s: Snippet)
    requires Acyclic(p) && c in p.chains
  {
    Seen(p, c, refer, s.tail).Some? && Seen(p, c, refer, s.tail).value.hash == s.tailHash
  }

  /** `findForkPoint`: what is left of the snippet, and whether there is a fork below it. */
  function FindFork(p: Pool, c: Id, refer: bool, s: Snippet): (r: (Snippet, bool))
    requires Acyclic(p) && c in p.chains && SnippetOk(s)
    ensures SnippetOk(r.0) && (r.1 ==> r.0.tail < r.0.head)
  {
    if TailSeen(p, c, refer, s) then MatchUp(p, c, refer, s) else (s, false)
  }

  ghost function BlocksOf(s: Snippet): set<Block> {
    set h | h in s.blocks :: s.blocks[h]
  }

  /** Everything trimmed off `s` is already in chain `c`. */
  ghost predicate TrimmedFrom(p: Pool, c: Id, s: Snippet, s': Snippet)
    requires Acyclic(p) && c in p.chains
  {
    forall h | s.tail < h <= s'.tail :: h in s.blocks && At(p, c, h) == Some(s.blocks[h])
  }

  /** Where chain and snippet have the same hash they have the same block. */
  ghost predicate HashesAgree(p: Pool, c: Id, s: Snippet)
    requires Acyclic(p) && c in p.chains
  {
    forall h | h in s.blocks && At(p, c, h).Some? && At(p, c, h).value.hash == s.blocks[h].hash ::
      At(p, c, h) == Some(s.blocks[h])
  }

  lemma HashesDoAgree(p: Pool, c: Id, s: Snippet)
    requires Acyclic(p) && c in p.chains && HashIdentifies(Held(p) + BlocksOf(s))
    ensures HashesAgree(p, c, s)
  {
    forall h | h in s.blocks && At(p, c, h).Some? && At(p, c, h).value.hash == s.blocks[h].hash
      ensures At(p, c, h) == Some(s.blocks[h])
    {
      LookupIsHeld(p, Chain(c), h);
      assert s.blocks[h] in BlocksOf(s);
    }
  }

  lemma SeenIsAt(p: Pool, c: Id, refer: bool, h: int)
    requires Acyclic(p) && c in p.chains && Seen(p, c, refer, h).Some?
    ensures Seen(p, c, refer, h) == At(p, c, h)
  {
    OwnOrParent(p, c, h);
  }

  lemma MatchUpStep(p: Pool, c: Id, refer: bool, s: Snippet)
    requires Acyclic(p) && c in p.chains && SnippetOk(s) && s.tail < s.head
    ensures var uncle, w := Seen(p, c, refer, s.tail + 1), s.blocks[s.tail + 1];
            && w.height == s.tail + 1 && SnippetOk(DropTail(s, w))
            && MatchUp(p, c, refer, s) == if uncle.None? then (s, false)
                                          else if w.hash != uncle.value.hash then (s, true)
                                          else MatchUp(p, c, refer, DropTail(s, w))
  {
    DropTailOk(s);
  }

  lemma TrimStep(p: Pool, c: Id, s: Snippet, s': Snippet)
    requires Acyclic(p) && c in p.chains && SnippetOk(s) && s.tail < s.head
    requires At(p, c, s.tail + 1) == Some(s.blocks[s.tail + 1])
    requires UpperPart(DropTail(s, s.blocks[s.tail + 1]), s')
    requires TrimmedFrom(p, c, DropTail(s, s.blocks[s.tail + 1]), s')
    ensures UpperPart(s, s') && TrimmedFrom(p, c, s, s')
  {
    assert s.blocks[s.tail + 1].height == s.tail + 1;
  }

  lemma {:induction false} MatchUpTrims(p: Pool, c: Id, refer: bool, s: Snippet)
    requires Acyclic(p) && c in p.chains && SnippetOk(s) && HashesAgree(p, c, s)
    ensures UpperPart(s, MatchUp(p, c, refer, s).0) && TrimmedFrom(p, c, s, MatchUp(p, c, refer, s).0)
    decreases s.head - s.tail
  {
    if s.tail < s.head {
      var uncle, d := Seen(p, c, refer, s.tail + 1), DropTail(s, s.blocks[s.tail + 1]);
      MatchUpStep(p, c, refer, s);
      if uncle.Some? && uncle.value.hash == s.blocks[s.tail + 1].hash {
        SeenIsAt(p, c, refer, s.tail + 1);
        assert HashesAgree(p, c, d);
        MatchUpTrims(p, c, refer, d);
        TrimStep(p, c, s, MatchUp(p, c, refer, d).0);
      }
    }
  }

  /** The loop ended standing on a block of the chain: at a difference if there is a fork, where the
      chain has nothing more if there is none. */
  ghost predicate Stopped(p: Pool, c: Id, refer: bool, s: Snippet, forked: bool)
    requires Acyclic(p) && c in p.chains
  {
    && TailSeen(p, c, refer, s)
    && (forked ==> s.tail + 1 in s.blocks && Seen(p, c, refer, s.tail + 1).Some?
                   && Seen(p, c, refer, s.tail + 1).value.hash != s.blocks[s.tail + 1].hash)
    && (!forked && s.tail < s.head ==> Seen(p, c, refer, s.tail + 1).None?)
  }

  /** A fork is reported at a block both have, with different blocks above it; without one, the
      chain was not followed to its end. */
  lemma {:induction false} MatchUpParts(p: Pool, c: Id, refer: bool, s: Snippet)
    requires Acyclic(p) && c in p.chains && SnippetOk(s) && TailSeen(p, c, refer, s)
    ensures var (s', forked) := MatchUp(p, c, refer, s); s.tail <= s'.tail && Stopped(p, c, refer, s', forked)
    decreases s.head - s.tail
  {
    if s.tail < s.head {
      MatchUpStep(p, c, refer, s);
      var uncle, w := Seen(p, c, refer, s.tail + 1), s.blocks[s.tail + 1];
      if uncle.Some? && w.hash == uncle.value.hash {
        MatchUpParts(p, c, refer, DropTail(s, w));
      }
    }
  }

  // ---------------------------------------------------------------- the verdict

  datatype Placement =
    | ForkFrom(parent: Id)   // fork the trimmed snippet off this chain
    | Append(chain: Id)      // the trimmed snippet continues this chain's head
    | Known                  // nothing of the snippet is left: it is discarded
    | Unplaced               // it stays for later
    | NilHead                // `sameChain` dereferences the head block of a chain that has none

  /** The chain has a block at its head. */
  predicate HasHead(p: Pool, c: Id)
    requires Acyclic(p) && c in p.chains
  {
    At(p, c, p.chains[c].head).Some?
  }

  /** `sameChain`: the snippet contains the chain's head. */
  predicate SameChain(p: Pool, c: Id, s: Snippet)
    requires Acyclic(p) && c in p.chains && HasHead(p, c)
  {
    var head := At(p, c, p.chains[c].head).value;
    head.height in s.blocks && s.blocks[head.height].hash == head.hash
  }

  function IfLeft(s: Snippet, placement: Placement): Placement {
    if s.head == s.tail then Known else placement
  }

  /** The part of `forky` after the loop: only current is tried through its references. */
  function ForkyCurrent(p: Pool, s: Snippet): (r: (Snippet, Placement))
    requires Acyclic(p) && p.current in p.chains && SnippetOk(s)
    ensures SnippetOk(r.0)
  {
    if s.tail <= DiskHead(p.disk).height then
      var (s', forked) := FindFork(p, p.current, true, s);
      if forked then (s', ForkFrom(p.current)) else (s', IfLeft(s', Unplaced))
    else (s, IfLeft(s, Unplaced))
  }

  /** The snippet's tail is the chain's head. */
  predicate Continuing(p: Pool, c: Id, s: Snippet)
    requires c in p.chains
  {
    s.tail == p.chains[c].head && s.tailHash == p.chains[c].headHash
  }

  /** The chain's head lies within the snippet; any other chain is passed over. */
  predicate Reached(p: Pool, c: Id, s: Snippet)
    requires c in p.chains
  {
    s.tail <= p.chains[c].head < s.head
  }

  /** `forky`, trying the chains in the order given. */
  function Forky(p: Pool, s: Snippet, order: seq<Id>): (r: (Snippet, Placement))
    requires Acyclic(p) && p.current in p.chains && SnippetOk(s)
    requires forall c | c in order :: c in p.chains
    ensures SnippetOk(r.0)
    decreases |order|
  {
    if order == [] then ForkyCurrent(p, s)
    else
      var c := order[0];
      if Continuing(p, c, s) then (s, Append(c))
      else if !Reached(p, c, s) then Forky(p, s, order[1..])
      else if !HasHead(p, c) then (s, NilHead)
      else if SameChain(p, c, s) then
        var s' := Cut(s, p.chains[c].head);
        (s', IfLeft(s', Append(c)))
      else
        var (s', forked) := FindFork(p, c, false, s);
        if forked then (s', ForkFrom(c))
        else if s'.head == s'.tail then (s', Known)
        else Forky(p, s', order[1..])
  }

  // ---------------------------------------------------------------- when it dereferences nil

  /** A chain without a block at its head is empty down to the disk, and the disk has none there
      either: nothing is stored yet, or it has been rolled back. */
  lemma NoHeadMeans(p: Pool, c: Id)
    requires Inv(p) && c in p.chains
    ensures HasHead(p, c) <==> LowTail(p, c) < p.chains[c].head || 0 <= p.chains[c].head < |p.disk|
  {
    LowTailIsLow(p, c);
    assert ChainOk(p, c);
    LookupSplits(p, c, p.chains[c].head);
  }

  /** The loop of `forky` comes to this chain and dereferences nil. */
  predicate Stumbles(p: Pool, c: Id, s: Snippet)
    requires Acyclic(p) && c in p.chains
  {
    !Continuing(p, c, s) && Reached(p, c, s) && !HasHead(p, c)
  }

  /** It leaves this chain and tries the next. */
  predicate Passed(p: Pool, c: Id, s: Snippet)
    requires Acyclic(p) && c in p.chains && SnippetOk(s)
  {
    && !Continuing(p, c, s)
    && (Reached(p, c, s) ==> HasHead(p, c) && !SameChain(p, c, s) && !FindFork(p, c, false, s).1)
  }

  lemma ForkyStep(p: Pool, s: Snippet, order: seq<Id>)
    requires Inv(p) && SnippetOk(s) && s.tail < s.head && HashIdentifies(Held(p) + BlocksOf(s))
    requires order != [] && forall c | c in order :: c in p.chains
    ensures order[0] in p.chains
    ensures Passed(p, order[0], s) ==> Forky(p, s, order) == Forky(p, s, order[1..])
    ensures !Passed(p, order[0], s) ==> (Forky(p, s, order).1.NilHead? <==> Stumbles(p, order[0], s))
  {
    var c := order[0];
    HashesDoAgree(p, c, s);
    if !Continuing(p, c, s) && Reached(p, c, s) && HasHead(p, c) && !SameChain(p, c, s) { OwnBlocksDecide(p, c, s); }
  }

  /** The loop passes over k chains and stumbles at the next. */
  ghost predicate StumblesAt(p: Pool, s: Snippet, order: seq<Id>, k: int)
    requires Acyclic(p) && SnippetOk(s) && forall c | c in order :: c in p.chains
  {
    0 <= k < |order| && Stumbles(p, order[k], s) && forall j | 0 <= j < k :: Passed(p, order[j], s)
  }

  lemma StumblesLater(p: Pool, s: Snippet, order: seq<Id>, k: int)
    requires Acyclic(p) && SnippetOk(s) && order != [] && forall c | c in order :: c in p.chains
    requires Passed(p, order[0], s)
    ensures StumblesAt(p, s, order, k + 1) <==> StumblesAt(p, s, order[1..], k)
    ensures !StumblesAt(p, s, order, 0)
  {
    var rest := order[1..];
    if StumblesAt(p, s, order, k + 1) {
      forall j | 0 <= j < k ensures Passed(p, rest[j], s) { assert Passed(p, order[j + 1], s); }
    }
    if StumblesAt(p, s, rest, k) {
      forall j | 0 <= j < k + 1
        ensures Passed(p, order[j], s)
      {
        if j > 0 { assert Passed(p, rest[j - 1], s); }
      }
    }
  }

  /** One turn dereferences nil exactly when it passes over some chains and then comes to one
      whose head lies within the snippet, does not end where the snippet begins, and has no
      block there. */
  lemma {:induction false} NilHeadExactly(p: Pool, s: Snippet, order: seq<Id>)
    requires Inv(p) && SnippetOk(s) && s.tail < s.head && HashIdentifies(Held(p) + BlocksOf(s))
    requires forall c | c in order :: c in p.chains
    ensures Forky(p, s, order).1.NilHead? <==> exists k :: StumblesAt(p, s, order, k)
    decreases |order|
  {
    if order != [] {
      var rest := order[1..];
      ForkyStep(p, s, order);
      if Passed(p, order[0], s) {
        NilHeadExactly(p, s, rest);
        if k :| StumblesAt(p, s, order, k) { StumblesLater(p, s, order, k - 1); }
        if k :| StumblesAt(p, s, rest, k) { StumblesLater(p, s, order, k); }
      } else if Stumbles(p, order[0], s) {
        assert StumblesAt(p, s, order, 0);
      }
    }
  }

  /** Chains that all have a block at their head are safe to offer. */
  lemma {:induction false} HeadsAreSafe(p: Pool, s: Snippet, order: seq<Id>)
    requires Acyclic(p) && p.current in p.chains && SnippetOk(s)
    requires forall c | c in order :: c in p.chains && HasHead(p, c)
    ensures !Forky(p, s, order).1.NilHead?
    decreases |order|
  {
    if order != [] {
      var c := order[0];
      assert c in order && forall d | d in order[1..] :: d in order;
      if !Continuing(p, c, s) {
        if !Reached(p, c, s) {
          HeadsAreSafe(p, s, order[1..]);
        } else if !SameChain(p, c, s) {
          HeadsAreSafe(p, FindFork(p, c, false, s).0, order[1..]);
        }
      }
    }
  }

  /** A hash that none of the chains offered ends in or has at height `h`. */
  lemma {:induction false} StrangeHash(p: Pool, order: seq<Id>, h: int, n: nat) returns (x: Hash)
    requires Acyclic(p) && forall c | c in order :: c in p.chains
    ensures |x| > n
    ensures forall c | c in order :: p.chains[c].headHash != x && HashAt(p, c, h) != x
  {
    if order == [] {
      x := seq(n + 1, _ => 'x');
    } else {
      var c := order[0];
      x := StrangeHash(p, order[1..], h, n + |p.chains[c].headHash| + |HashAt(p, c, h)|);
      forall d | d in order
        ensures p.chains[d].headHash != x && HashAt(p, d, h) != x
      {
        assert d == c || d in order[1..];
      }
    }
  }

  /** A single block whose parent no chain offered knows. */
  function Stray(h: int, x: Hash): Snippet {
    Snippet(h, x, h + 1, "stray", map[h + 1 := Block(h + 1, "stray", x)])
  }

  lemma {:induction false} StrayStumbles(p: Pool, order: seq<Id>, h: int, x: Hash)
    requires Inv(p) && -1 <= h && x != "" && forall c | c in order :: c in p.chains
    requires forall c | c in order :: p.chains[c].headHash != x && HashAt(p, c, h) != x
    requires exists c :: c in order && p.chains[c].head == h && !HasHead(p, c)
    ensures SnippetOk(Stray(h, x)) && Forky(p, Stray(h, x), order).1.NilHead?
    decreases |order|
  {
    var s, c := Stray(h, x), order[0];
    assert c in order && !Continuing(p, c, s);
    assert forall d | d in order :: d == c || d in order[1..];
    if !Reached(p, c, s) || HasHead(p, c) {
      assert Forky(p, s, order) == Forky(p, s, order[1..]) by {
        if Reached(p, c, s) {
          FoundAtHeight(p, Chain(c), h);
          if TailSeen(p, c, false, s) { SeenIsAt(p, c, false, h); }
        }
      }
      StrayStumbles(p, order[1..], h, x);
    }
  }

  lemma StumblingSnippet(p: Pool, order: seq<Id>, c: Id) returns (s: Snippet)
    requires Inv(p) && (forall c | c in order :: c in p.chains) && c in order && !HasHead(p, c)
    ensures SnippetOk(s) && s.tail < s.head && Forky(p, s, order).1.NilHead?
  {
    var h := p.chains[c].head;
    assert ChainOk(p, c);
    var x := StrangeHash(p, order, h, 0);
    StrayStumbles(p, order, h, x);
    s := Stray(h, x);
  }

  /** So a turn is safe for whatever snippet comes exactly when every chain offered has a block
      at its head. */
  lemma SafeForEverySnippet(p: Pool, order: seq<Id>)
    requires Inv(p) && forall c | c in order :: c in p.chains
    ensures (forall s | SnippetOk(s) :: !Forky(p, s, order).1.NilHead?) <==> (forall c | c in order :: HasHead(p, c))
  {
    if forall c | c in order :: HasHead(p, c) {
      forall s | SnippetOk(s) ensures !Forky(p, s, order).1.NilHead? { HeadsAreSafe(p, s, order); }
    } else {
      var c :| c in order && !HasHead(p, c);
      var _ := StumblingSnippet(p, order, c);
    }
  }

  /** On the pool of an account with nothing stored, a turn dereferences nil exactly for a snippet
      that starts at height 0 without the empty hash below it. */
  lemma FreshPoolCrashesExactly(s: Snippet)
    requires SnippetOk(s) && s.tail < s.head
    ensures Inv(Init([])) && 1 in Init([]).chains
    ensures Forky(Init([]), s, [1]).1.NilHead? <==> s.tail == -1 && s.tailHash != ""
    ensures s.tail == -1 && s.tailHash == "" ==> Forky(Init([]), s, [1]) == (s, Append(1))
  {
    var p := Init([]);
    InitKeepsInv([]);
    OwnOrParent(p, 1, -1);
    assert !Continuing(p, 1, s) && !Reached(p, 1, s) ==> Forky(p, s, [1]) == Forky(p, s, []);
  }

  // ---------------------------------------------------------------- what the verdict means

  /** A chain that the snippet outgrows without containing its head differs from it somewhere, so
      trimming against the chain's own blocks without finding a fork trims nothing. */
  lemma OwnBlocksDecide(p: Pool, id: Id, s: Snippet)
    requires TreeOk(p) && DiskOk(p.disk) && id in p.chains && HasHead(p, id) && SnippetOk(s) && HashesAgree(p, id, s)
    requires Reached(p, id, s) && !SameChain(p, id, s)
    ensures FindFork(p, id, false, s).1 || FindFork(p, id, false, s).0 == s
  {
    var c := p.chains[id];
    assert ChainOk(p, id);
    FoundAtHeight(p, Chain(id), c.head);
    if TailSeen(p, id, false, s) && !MatchUp(p, id, false, s).1 {
      var s' := MatchUp(p, id, false, s).0;
      MatchUpParts(p, id, false, s);
      MatchUpTrims(p, id, false, s);
      assert s'.tail == c.head;
      if s.tail == s'.tail { UntouchedMatch(p, id, false, s); }
    }
  }

  lemma UntouchedMatch(p: Pool, c: Id, refer: bool, s: Snippet)
    requires Acyclic(p) && c in p.chains && SnippetOk(s) && HashesAgree(p, c, s)
    requires MatchUp(p, c, refer, s).0.tail == s.tail
    ensures MatchUp(p, c, refer, s).0 == s
  {
    if s.tail < s.head {
      DropTailOk(s);
      MatchUpTrims(p, c, refer, DropTail(s, s.blocks[s.tail + 1]));
    }
  }

  /** A snippet that shares a block with a sound chain shares everything below it too. */
  lemma {:induction false} SnippetAgreesBelow(p: Pool, c: Id, s: Snippet, top: int, h: int)
    requires TreeOk(p) && c in p.chains && Sound(p, c) && SnippetOk(s)
    requires HashesAgree(p, c, s)
    requires s.tail < h <= top <= p.chains[c].head && top <= s.head && At(p, c, top) == Some(s.blocks[top])
    ensures At(p, c, h) == Some(s.blocks[h])
    decreases top - h
  {
    if h < top {
      assert SoundAt(p, c, top) && LinkAt(s.blocks, top);
      assert At(p, c, top - 1).Some?;
      SnippetAgreesBelow(p, c, s, top - 1, h);
    }
  }

  /** `s'` continues chain `c` at its head. */
  ghost predicate Appendable(p: Pool, c: Id, s: Snippet, s': Snippet)
    requires Acyclic(p)
  {
    && c in p.chains && TrimmedFrom(p, c, s, s')
    && s'.tail == p.chains[c].head && s'.tailHash == p.chains[c].headHash && s'.tail < s'.head
  }

  /** `s'` leaves chain `c` at a block they share, with a different block above it. */
  ghost predicate Forkable(p: Pool, c: Id, s: Snippet, s': Snippet)
    requires Acyclic(p)
  {
    && Forks(p, c, s') && TrimmedFrom(p, c, s, s')
    && s'.tail + 1 in s'.blocks
    && At(p, c, s'.tail + 1).Some? && At(p, c, s'.tail + 1) != Some(s'.blocks[s'.tail + 1])
  }

  /** `s'` is handed to chain `c` at the height of its head. If `c` is complete, or nothing was
      trimmed, it continues it. */
  ghost predicate Handed(p: Pool, c: Id, s: Snippet, s': Snippet)
    requires Acyclic(p)
  {
    && c in p.chains && s'.tail == p.chains[c].head && s'.tail < s'.head
    && (s' == s || Sound(p, c) ==> Appendable(p, c, s, s'))
  }

  ghost predicate Placed(p: Pool, s: Snippet, s': Snippet, v: Placement)
    requires Acyclic(p) && p.current in p.chains
  {
    && UpperPart(s, s')
    && match v
       case Append(c) => Handed(p, c, s, s')
       case ForkFrom(c) => Forkable(p, c, s, s')
       case Known => s'.tail == s'.head && TrimmedFrom(p, p.current, s, s')
       case Unplaced => TrimmedFrom(p, p.current, s, s')
       case NilHead => s' == s
  }

  lemma ForkIsInRange(p: Pool, c: Id, refer: bool, h: int)
    requires Inv(p) && c in p.chains && Seen(p, c, refer, h + 1).Some? && (refer ==> c == p.current)
    ensures h < p.chains[c].head
  {
    assert ChainOk(p, c);
    if refer && p.chains[c].head <= h { NothingAboveCurrent(p, h + 1); }
  }

  /** A fork verdict is fit for `forkChain`, whatever the hashes are. */
  lemma FindForkForks(p: Pool, c: Id, refer: bool, s: Snippet)
    requires Inv(p) && c in p.chains && SnippetOk(s) && FindFork(p, c, refer, s).1 && (refer ==> c == p.current)
    ensures Forks(p, c, FindFork(p, c, refer, s).0)
  {
    var s' := FindFork(p, c, refer, s).0;
    MatchUpParts(p, c, refer, s);
    SeenIsAt(p, c, refer, s'.tail);
    ForkIsInRange(p, c, refer, s'.tail);
  }

  lemma ForkIsPlaced(p: Pool, c: Id, refer: bool, s: Snippet)
    requires Inv(p) && c in p.chains && SnippetOk(s) && HashesAgree(p, c, s)
    requires FindFork(p, c, refer, s).1 && (refer ==> c == p.current)
    ensures UpperPart(s, FindFork(p, c, refer, s).0) && Forkable(p, c, s, FindFork(p, c, refer, s).0)
  {
    FindForkForks(p, c, refer, s);
    MatchUpTrims(p, c, refer, s);
    MatchUpParts(p, c, refer, s);
    SeenIsAt(p, c, refer, FindFork(p, c, refer, s).0.tail + 1);
  }

  lemma CutIsPlaced(p: Pool, id: Id, s: Snippet)
    requires Inv(p) && id in p.chains && HasHead(p, id) && SnippetOk(s) && HashesAgree(p, id, s)
    requires Reached(p, id, s) && SameChain(p, id, s)
    ensures UpperPart(s, Cut(s, p.chains[id].head)) && Handed(p, id, s, Cut(s, p.chains[id].head))
    ensures Cut(s, p.chains[id].head) != s
  {
    var top := p.chains[id].head;
    FoundAtHeight(p, Chain(id), top);
    CutMeans(s, top);
    if Sound(p, id) {
      forall h | s.tail < h <= top
        ensures h in s.blocks && At(p, id, h) == Some(s.blocks[h])
      {
        SnippetAgreesBelow(p, id, s, top, h);
      }
    }
  }

  lemma CurrentIsPlaced(p: Pool, s: Snippet)
    requires Inv(p) && SnippetOk(s) && s.tail < s.head && HashesAgree(p, p.current, s)
    ensures Placed(p, s, ForkyCurrent(p, s).0, ForkyCurrent(p, s).1)
  {
    if s.tail <= DiskHead(p.disk).height {
      MatchUpTrims(p, p.current, true, s);
      if FindFork(p, p.current, true, s).1 { ForkIsPlaced(p, p.current, true, s); }
    }
  }

  /** The verdict of `forky`, whatever chains are offered and in whatever order. An append verdict
      leaves a non-empty snippet whose tail is exactly the chain's head. A fork verdict leaves one
      that starts above a block of the chain with a different first block. Everything trimmed off
      is already in that chain, and all of a snippet declared known is in current. */
  lemma {:induction false} ForkyMeans(p: Pool, s: Snippet, order: seq<Id>)
    requires Inv(p) && SnippetOk(s) && s.tail < s.head && HashIdentifies(Held(p) + BlocksOf(s))
    requires forall c | c in order :: c in p.chains
    ensures Placed(p, s, Forky(p, s, order).0, Forky(p, s, order).1)
    decreases |order|
  {
    if order == [] {
      HashesDoAgree(p, p.current, s);
      CurrentIsPlaced(p, s);
    } else {
      var c := order[0];
      assert c in order && forall d | d in order[1..] :: d in order;
      ForkyStep(p, s, order);
      HashesDoAgree(p, c, s);
      if Passed(p, c, s) {
        ForkyMeans(p, s, order[1..]);
      } else if Reached(p, c, s) && !Continuing(p, c, s) && HasHead(p, c) {
        if SameChain(p, c, s) { CutIsPlaced(p, c, s); } else { ForkIsPlaced(p, c, false, s); }
      }
    }
  }

  // ---------------------------------------------------------------- appending

  /** The pool, what is left of the snippet, and whether every block was taken. */
  datatype Inserted = Inserted(pool: Pool, rest: Snippet, ok: bool)

  /** `insert` takes the block. */
  predicate Takes(p: Pool, c: Id, w: Block)
    requires c in p.chains
  {
    w.height == p.chains[c].head + 1 && p.chains[c].headHash == w.preHash
  }

  /** `insertSnippet`: block by block, each consumed as it goes on the chain, up to the first that
      the chain refuses. */
  function InsertSnippet(p: Pool, c: Id, s: Snippet): Inserted
    requires c in p.chains && SnippetOk(s)
    decreases s.head - s.tail
  {
    if s.tail == s.head then Inserted(p, s, true)
    else
      var w := s.blocks[s.tail + 1];
      if !Takes(p, c, w) then Inserted(p, s, false)
      else
        DropTailOk(s);
        InsertSnippet(Insert(p, c, w), c, DropTail(s, w))
  }

  lemma InsertSnippetStep(p: Pool, c: Id, s: Snippet)
    requires c in p.chains && SnippetOk(s) && s.tail < s.head
    ensures var w := s.blocks[s.tail + 1];
            && SnippetOk(DropTail(s, w)) && DropTail(s, w).tail == s.tail + 1
            && c in Insert(p, c, w).chains && (!Takes(p, c, w) ==> Insert(p, c, w) == p)
            && InsertSnippet(p, c, s) == if Takes(p, c, w) then InsertSnippet(Insert(p, c, w), c, DropTail(s, w))
                                         else Inserted(p, s, false)
  {
    DropTailOk(s);
  }

  /** After an append verdict every block goes on: the snippet is used up and the chain is
      extended by exactly its blocks. */
  lemma {:induction false} InsertSnippetAppends(p: Pool, c: Id, s: Snippet)
    requires c in p.chains && SnippetOk(s)
    requires s.tail == p.chains[c].head && s.tailHash == p.chains[c].headHash
    ensures var r := InsertSnippet(p, c, s);
            && r.ok && r.rest.tail == r.rest.head
            && r.pool == p.(chains := p.chains[c := p.chains[c].(head := s.head, headHash := s.headHash,
                                                                  blocks := p.chains[c].blocks + s.blocks)])
    decreases s.head - s.tail
  {
    var f := p.chains[c];
    if s.tail == s.head {
      assert forall h :: h !in s.blocks;
      assert f.blocks + s.blocks == f.blocks;
      assert p.chains[c := f] == p.chains;
    } else {
      var w := s.blocks[s.tail + 1];
      DropTailOk(s);
      var q, s' := Insert(p, c, w), DropTail(s, w);
      InsertSnippetAppends(q, c, s');
      assert q.chains[c].blocks + s'.blocks == f.blocks + s.blocks;
    }
  }

  /** Inserting a snippet, all of it or up to a refusal, keeps the invariant and every complete
      chain. */
  lemma {:induction false} InsertSnippetContinues(p: Pool, c: Id, s: Snippet, id: Id)
    requires Inv(p) && c in p.chains && SnippetOk(s) && id in p.chains && Sound(p, id)
    ensures Inv(InsertSnippet(p, c, s).pool) && Continues(p, InsertSnippet(p, c, s).pool, id)
    decreases s.head - s.tail
  {
    SameContinues(p, p, id);
    if s.tail < s.head && Takes(p, c, s.blocks[s.tail + 1]) {
      var w := s.blocks[s.tail + 1];
      DropTailOk(s);
      InsertKeepsInv(p, c, w);
      InsertContinues(p, c, w, id);
      InsertSnippetContinues(Insert(p, c, w), c, DropTail(s, w), id);
      ContinuesTrans(p, Insert(p, c, w), InsertSnippet(p, c, s).pool, id);
    }
  }

  /** What `loopAppendChains` does with a verdict and the rest of the snippet. */
  function Act(p: Pool, r: Snippet, v: Placement): Pool
    requires SnippetOk(r)
  {
    match v
    case ForkFrom(c) => Fork(p, c, r)
    case Append(c) => if c in p.chains then InsertSnippet(p, c, r).pool else p
    case Known => p
    case Unplaced => p
    case NilHead => p
  }

  /** One turn of `loopAppendChains`. */
  function Place(p: Pool, s: Snippet, order: seq<Id>): Pool
    requires Acyclic(p) && p.current in p.chains && SnippetOk(s)
    requires forall c | c in order :: c in p.chains
  {
    Act(p, Forky(p, s, order).0, Forky(p, s, order).1)
  }

  /** What the next step needs of the verdict, whatever the hashes are. */
  lemma {:induction false} ForkyIsFit(p: Pool, s: Snippet, order: seq<Id>)
    requires Inv(p) && SnippetOk(s) && forall c | c in order :: c in p.chains
    ensures var (s', v) := Forky(p, s, order);
            && (v.ForkFrom? ==> Forks(p, v.parent, s') && (v.parent == p.current || v.parent in order))
            && (v.Append? ==> v.chain in order)
    decreases |order|
  {
    if order == [] {
      if FindFork(p, p.current, true, s).1 { FindForkForks(p, p.current, true, s); }
    } else {
      var c := order[0];
      assert c in order && forall d | d in order[1..] :: d in order;
      if !Continuing(p, c, s) {
        if !Reached(p, c, s) {
          ForkyIsFit(p, s, order[1..]);
        } else if HasHead(p, c) && !SameChain(p, c, s) {
          if FindFork(p, c, false, s).1 {
            FindForkForks(p, c, false, s);
          } else {
            ForkyIsFit(p, FindFork(p, c, false, s).0, order[1..]);
          }
        }
      }
    }
  }

  /** Placing a snippet, wherever the verdict puts it, keeps the invariant and every complete
      chain, whatever chains are offered and whatever the hashes are. */
  lemma PlaceContinues(p: Pool, s: Snippet, order: seq<Id>, id: Id)
    requires Inv(p) && SnippetOk(s) && forall c | c in order :: c in p.chains
    requires id in p.chains && Sound(p, id)
    ensures Inv(Place(p, s, order)) && Continues(p, Place(p, s, order), id)
  {
    ForkyIsFit(p, s, order);
    SameContinues(p, p, id);
    var (s', v) := Forky(p, s, order);
    if v.ForkFrom? { ForkKeepsInv(p, v.parent, s'); ForkContinues(p, v.parent, s', id); }
    if v.Append? { InsertSnippetContinues(p, v.chain, s', id); }
  }
}
