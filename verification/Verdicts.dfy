/** When each verdict on a snippet is given, told from the blocks of the chains offered and of the
    snippet; and what the verdict leaves of the snippet. */
module Verdicts {
  import opened Blocks
  import opened ForkTree
  import opened Rerooting
  import opened PoolSteps
  import opened PoolMachine
  import opened PoolRuns
  import opened ForkSwitch
  import opened Attach

  /** `r` is what is left of `s` above height t. */
  ghost predicate Rest(s: Snippet, r: Snippet, t: int) {
    && s.tail <= t <= s.head && r.tail == t && r.head == s.head && r.headHash == s.headHash
    && (if t == s.tail then r.tailHash == s.tailHash else t in s.blocks && r.tailHash == s.blocks[t].hash)
    && (forall h :: h in r.blocks <==> t < h <= s.head)
    && (forall h | t < h <= s.head :: h in s.blocks && r.blocks[h] == s.blocks[h])
  }

  lemma RestIsUnique(s: Snippet, r: Snippet, q: Snippet, t: int)
    requires Rest(s, r, t) && Rest(s, q, t)
    ensures r == q
  {
    forall h: int ensures h in r.blocks.Keys <==> h in q.blocks.Keys { assert h in r.blocks <==> h in q.blocks; }
    assert forall h | h in r.blocks :: t < h <= s.head && r.blocks[h] == q.blocks[h];
    assert r.blocks == q.blocks;
  }

  lemma WholeIsRest(s: Snippet)
    requires SnippetOk(s)
    ensures Rest(s, s, s.tail)
  {
  }

  // ---------------------------------------------------------------- what a chain decides

  /** The snippet goes on where the chain ends: it begins at the chain's head, or contains it below its
      own head. */
  predicate Appends(p: Pool, c: Id, s: Snippet)
    requires Acyclic(p) && c in p.chains
  {
    var f := p.chains[c];
    || (s.tail == f.head && s.tailHash == f.headHash)
    || (s.tail < f.head < s.head && f.head in s.blocks
        && At(p, c, f.head).Some? && s.blocks[f.head].hash == At(p, c, f.head).value.hash)
  }

  /** The chain's head lies within the snippet, and the chain has no block there. */
  predicate Headless(p: Pool, c: Id, s: Snippet)
    requires Acyclic(p) && c in p.chains
  {
    !Appends(p, c, s) && s.tail <= p.chains[c].head < s.head && At(p, c, p.chains[c].head).None?
  }

  /** A block of the chain: one of its own, or any. */
  function BlockOf(p: Pool, c: Id, own: bool, h: int): Option<Block>
    requires Acyclic(p) && c in p.chains
  {
    if !own then At(p, c, h) else if h in p.chains[c].blocks then Some(p.chains[c].blocks[h]) else None
  }

  predicate SameHash(b: Option<Block>, hash: Hash) {
    b.Some? && b.value.hash == hash
  }

  /** The chain has the block the snippet stands on, and its blocks up to t. */
  ghost predicate SharesTo(p: Pool, c: Id, own: bool, s: Snippet, t: int)
    requires Acyclic(p) && c in p.chains
  {
    && s.tail <= t <= s.head && SameHash(BlockOf(p, c, own, s.tail), s.tailHash)
    && forall h | s.tail < h <= t :: h in s.blocks && SameHash(BlockOf(p, c, own, h), s.blocks[h].hash)
  }

  /** They share up to t, and go on differently. */
  ghost predicate PartsAfter(p: Pool, c: Id, own: bool, s: Snippet, t: int)
    requires Acyclic(p) && c in p.chains
  {
    && SharesTo(p, c, own, s, t) && t < s.head && t + 1 in s.blocks
    && BlockOf(p, c, own, t + 1).Some? && BlockOf(p, c, own, t + 1).value.hash != s.blocks[t + 1].hash
  }

  /** They share up to t, and the chain goes no further, or the snippet does not. */
  ghost predicate EndsAfter(p: Pool, c: Id, own: bool, s: Snippet, t: int)
    requires Acyclic(p) && c in p.chains
  {
    SharesTo(p, c, own, s, t) && (t < s.head ==> BlockOf(p, c, own, t + 1).None?)
  }

  /** The snippet leaves the chain among the chain's own blocks, below its head. */
  ghost predicate Leaves(p: Pool, c: Id, s: Snippet, t: int)
    requires Acyclic(p) && c in p.chains
  {
    && !Appends(p, c, s) && s.tail <= p.chains[c].head < s.head && At(p, c, p.chains[c].head).Some?
    && PartsAfter(p, c, true, s, t)
  }

  /** The chain decides nothing. */
  ghost predicate PassedOver(p: Pool, c: Id, s: Snippet)
    requires Acyclic(p) && c in p.chains
  {
    !Appends(p, c, s) && !Headless(p, c, s) && forall t :: !Leaves(p, c, s, t)
  }

  /** What a chain that is not passed over decides, and what it leaves of the snippet. */
  ghost predicate Decides(p: Pool, c: Id, s: Snippet, r: Snippet, v: Placement)
    requires Acyclic(p) && c in p.chains
  {
    match v
    case Append(d) => d == c && Appends(p, c, s) && Rest(s, r, p.chains[c].head)
    case NilHead => Headless(p, c, s) && r == s
    case ForkFrom(d) => d == c && exists t :: Leaves(p, c, s, t) && Rest(s, r, t)
    case Known => false
    case Unplaced => false
  }

  /** The first chain in the order that is not passed over decides. */
  ghost predicate DecidedAt(p: Pool, s: Snippet, order: seq<Id>, k: int, r: Snippet, v: Placement)
    requires Acyclic(p) && forall c | c in order :: c in p.chains
  {
    0 <= k < |order| && Decides(p, order[k], s, r, v) && forall j | 0 <= j < k :: PassedOver(p, order[j], s)
  }

  ghost predicate AllPassedOver(p: Pool, s: Snippet, order: seq<Id>)
    requires Acyclic(p) && forall c | c in order :: c in p.chains
  {
    forall j | 0 <= j < |order| :: PassedOver(p, order[j], s)
  }

  /** Current is tried through its references, when the snippet begins no higher than the disk ends. */
  ghost predicate CurrentTried(p: Pool, s: Snippet)
    requires Acyclic(p) && p.current in p.chains
  {
    s.tail <= DiskHead(p.disk).height && SameHash(At(p, p.current, s.tail), s.tailHash)
  }

  ghost predicate CurrentDecides(p: Pool, s: Snippet, r: Snippet, v: Placement)
    requires Acyclic(p) && p.current in p.chains
  {
    match v
    case ForkFrom(c) => c == p.current && CurrentTried(p, s) && exists t :: PartsAfter(p, p.current, false, s, t) && Rest(s, r, t)
    case Known => CurrentTried(p, s) && SharesTo(p, p.current, false, s, s.head) && Rest(s, r, s.head)
    case Unplaced =>
      if CurrentTried(p, s) then exists t :: t < s.head && EndsAfter(p, p.current, false, s, t) && Rest(s, r, t)
      else r == s
    case Append(_) => false
    case NilHead => false
  }

  /** The whole verdict. */
  ghost predicate Verdict(p: Pool, s: Snippet, order: seq<Id>, r: Snippet, v: Placement)
    requires Acyclic(p) && p.current in p.chains && forall c | c in order :: c in p.chains
  {
    || (exists k :: DecidedAt(p, s, order, k, r, v))
    || (AllPassedOver(p, s, order) && CurrentDecides(p, s, r, v))
  }

  // ---------------------------------------------------------------- there is only one

  lemma SameEnd(p: Pool, c: Id, own: bool, s: Snippet, t: int, t': int)
    requires Acyclic(p) && c in p.chains
    requires PartsAfter(p, c, own, s, t) || EndsAfter(p, c, own, s, t)
    requires PartsAfter(p, c, own, s, t') || EndsAfter(p, c, own, s, t')
    ensures t == t'
    ensures t < s.head ==> (PartsAfter(p, c, own, s, t) <==> PartsAfter(p, c, own, s, t'))
  {
  }

  lemma DecidesOnce(p: Pool, c: Id, s: Snippet, r: Snippet, v: Placement, q: Snippet, w: Placement)
    requires Acyclic(p) && c in p.chains && Decides(p, c, s, r, v) && Decides(p, c, s, q, w)
    ensures r == q && v == w
  {
    if v.Append? {
      RestIsUnique(s, r, q, p.chains[c].head);
    } else if v.ForkFrom? && w.ForkFrom? {
      var t :| Leaves(p, c, s, t) && Rest(s, r, t);
      var t' :| Leaves(p, c, s, t') && Rest(s, q, t');
      SameEnd(p, c, true, s, t, t');
      RestIsUnique(s, r, q, t);
    }
  }

  lemma DeciderIsNotPassed(p: Pool, c: Id, s: Snippet, r: Snippet, v: Placement)
    requires Acyclic(p) && c in p.chains && Decides(p, c, s, r, v)
    ensures !PassedOver(p, c, s)
  {
  }

  lemma CurrentDecidesOnce(p: Pool, s: Snippet, r: Snippet, v: Placement, q: Snippet, w: Placement)
    requires Acyclic(p) && p.current in p.chains && s.tail < s.head
    requires CurrentDecides(p, s, r, v) && CurrentDecides(p, s, q, w)
    ensures r == q && v == w
  {
    if CurrentTried(p, s) {
      var t := CurrentEnd(p, s, r, v);
      var t' := CurrentEnd(p, s, q, w);
      SameEnd(p, p.current, false, s, t, t');
      RestIsUnique(s, r, q, t);
    }
  }

  /** Where the following of current ended. */
  lemma CurrentEnd(p: Pool, s: Snippet, r: Snippet, v: Placement) returns (t: int)
    requires Acyclic(p) && p.current in p.chains && CurrentDecides(p, s, r, v) && CurrentTried(p, s)
    ensures Rest(s, r, t)
    ensures match v
            case ForkFrom(c) => c == p.current && PartsAfter(p, p.current, false, s, t)
            case Known => t == s.head && EndsAfter(p, p.current, false, s, t)
            case Unplaced => t < s.head && EndsAfter(p, p.current, false, s, t)
            case Append(_) => false
            case NilHead => false
  {
    match v
    case ForkFrom(c) => t :| PartsAfter(p, p.current, false, s, t) && Rest(s, r, t);
    case Known => t := s.head;
    case Unplaced => t :| t < s.head && EndsAfter(p, p.current, false, s, t) && Rest(s, r, t);
  }

  lemma VerdictIsUnique(p: Pool, s: Snippet, order: seq<Id>, r: Snippet, v: Placement, q: Snippet, w: Placement)
    requires Acyclic(p) && p.current in p.chains && (forall c | c in order :: c in p.chains) && s.tail < s.head
    requires Verdict(p, s, order, r, v) && Verdict(p, s, order, q, w)
    ensures r == q && v == w
  {
    if k :| DecidedAt(p, s, order, k, r, v) {
      DeciderIsNotPassed(p, order[k], s, r, v);
      var i :| DecidedAt(p, s, order, i, q, w);
      DeciderIsNotPassed(p, order[i], s, q, w);
      assert i == k;
      DecidesOnce(p, order[k], s, r, v, q, w);
    } else {
      if i :| DecidedAt(p, s, order, i, q, w) { DeciderIsNotPassed(p, order[i], s, q, w); }
      CurrentDecidesOnce(p, s, r, v, q, w);
    }
  }

  // ---------------------------------------------------------------- the code gives it

  /** Following ended at the tail of `r`, at a difference or where there is no more. */
  ghost predicate Ended(p: Pool, c: Id, own: bool, s: Snippet, r: Snippet, forked: bool)
    requires Acyclic(p) && c in p.chains
  {
    Rest(s, r, r.tail) && if forked then PartsAfter(p, c, own, s, r.tail) else EndsAfter(p, c, own, s, r.tail)
  }

  lemma RestStep(s: Snippet, r: Snippet)
    requires SnippetOk(s) && s.tail < s.head
    requires SnippetOk(DropTail(s, s.blocks[s.tail + 1])) && Rest(DropTail(s, s.blocks[s.tail + 1]), r, r.tail)
    ensures Rest(s, r, r.tail) && s.tail < r.tail
  {
  }

  lemma SharesStep(p: Pool, c: Id, own: bool, s: Snippet, t: int)
    requires Acyclic(p) && c in p.chains && SnippetOk(s) && s.tail < s.head
    requires SameHash(BlockOf(p, c, own, s.tail), s.tailHash)
    requires SharesTo(p, c, own, DropTail(s, s.blocks[s.tail + 1]), t)
    ensures SharesTo(p, c, own, s, t)
  {
    assert SameHash(BlockOf(p, c, own, s.tail + 1), s.blocks[s.tail + 1].hash);
  }

  /** Following a chain from a block the snippet stands on. */
  lemma {:induction false} MatchUpEnds(p: Pool, c: Id, refer: bool, s: Snippet)
    requires Acyclic(p) && c in p.chains && SnippetOk(s) && SameHash(BlockOf(p, c, !refer, s.tail), s.tailHash)
    ensures Ended(p, c, !refer, s, MatchUp(p, c, refer, s).0, MatchUp(p, c, refer, s).1)
    decreases s.head - s.tail
  {
    WholeIsRest(s);
    if s.tail < s.head {
      var uncle, w := BlockOf(p, c, !refer, s.tail + 1), s.blocks[s.tail + 1];
      assert uncle == Seen(p, c, refer, s.tail + 1);
      MatchUpStep(p, c, refer, s);
      if SameHash(uncle, w.hash) {
        var r := MatchUp(p, c, refer, s).0;
        MatchUpEnds(p, c, refer, DropTail(s, w));
        RestStep(s, r);
        SharesStep(p, c, !refer, s, r.tail);
      }
    }
  }

  lemma FindForkEnds(p: Pool, c: Id, refer: bool, s: Snippet)
    requires Acyclic(p) && c in p.chains && SnippetOk(s)
    ensures var (r, forked) := FindFork(p, c, refer, s);
            if SameHash(BlockOf(p, c, !refer, s.tail), s.tailHash) then Ended(p, c, !refer, s, r, forked)
            else r == s && !forked
  {
    if SameHash(BlockOf(p, c, !refer, s.tail), s.tailHash) { MatchUpEnds(p, c, refer, s); }
  }

  lemma ForkyCurrentDecides(p: Pool, s: Snippet)
    requires Inv(p) && SnippetOk(s) && s.tail < s.head
    ensures CurrentDecides(p, s, ForkyCurrent(p, s).0, ForkyCurrent(p, s).1)
  {
    FindForkEnds(p, p.current, true, s);
    if !CurrentTried(p, s) { WholeIsRest(s); }
  }

  /** Cutting at the chain's head leaves the rest above it. */
  lemma CutIsRest(s: Snippet, h: int)
    requires SnippetOk(s) && s.tail < h < s.head
    ensures Rest(s, Cut(s, h), h)
  {
    CutMeans(s, h);
  }

  /** A chain whose head the snippet contains. */
  lemma ContainedDecides(p: Pool, s: Snippet, order: seq<Id>)
    requires Inv(p) && SnippetOk(s) && s.tail < s.head && order != [] && forall c | c in order :: c in p.chains
    requires order[0] in p.chains
    requires !Continuing(p, order[0], s) && Reached(p, order[0], s) && HasHead(p, order[0]) && SameChain(p, order[0], s)
    ensures Decides(p, order[0], s, Forky(p, s, order).0, Forky(p, s, order).1)
  {
    var c := order[0];
    var h := p.chains[c].head;
    FoundAtHeight(p, Chain(c), h);
    CutIsRest(s, h);
    assert Forky(p, s, order) == (Cut(s, h), Append(c));
  }

  /** A chain whose head lies within the snippet and is another block. */
  lemma FollowedDecides(p: Pool, s: Snippet, order: seq<Id>)
    requires Inv(p) && SnippetOk(s) && s.tail < s.head && HashIdentifies(Held(p) + BlocksOf(s))
    requires order != [] && (forall c | c in order :: c in p.chains) && order[0] in p.chains
    requires !Continuing(p, order[0], s) && Reached(p, order[0], s) && HasHead(p, order[0]) && !SameChain(p, order[0], s)
    ensures if PassedOver(p, order[0], s) then Forky(p, s, order) == Forky(p, s, order[1..])
            else Decides(p, order[0], s, Forky(p, s, order).0, Forky(p, s, order).1)
  {
    var c := order[0];
    FoundAtHeight(p, Chain(c), p.chains[c].head);
    FindForkEnds(p, c, false, s);
    var (r, forked) := FindFork(p, c, false, s);
    assert !Appends(p, c, s);
    if forked {
      assert Leaves(p, c, s, r.tail);
    } else {
      HashesDoAgree(p, c, s);
      OwnBlocksDecide(p, c, s);
      forall t ensures !Leaves(p, c, s, t) { if Leaves(p, c, s, t) { SameEnd(p, c, true, s, t, r.tail); } }
      assert PassedOver(p, c, s);
    }
  }

  /** One chain: the code passes over it, or does what the chain decides. */
  lemma ChainDecides(p: Pool, s: Snippet, order: seq<Id>)
    requires Inv(p) && SnippetOk(s) && s.tail < s.head && HashIdentifies(Held(p) + BlocksOf(s))
    requires order != [] && forall c | c in order :: c in p.chains
    ensures order[0] in p.chains
    ensures if PassedOver(p, order[0], s) then Forky(p, s, order) == Forky(p, s, order[1..])
            else Decides(p, order[0], s, Forky(p, s, order).0, Forky(p, s, order).1)
  {
    var c := order[0];
    assert c in order;
    if Continuing(p, c, s) {
      WholeIsRest(s);
    } else if Reached(p, c, s) && HasHead(p, c) {
      if SameChain(p, c, s) { ContainedDecides(p, s, order); } else { FollowedDecides(p, s, order); }
    }
  }

  lemma {:induction false} ForkyGives(p: Pool, s: Snippet, order: seq<Id>)
    requires Inv(p) && SnippetOk(s) && s.tail < s.head && HashIdentifies(Held(p) + BlocksOf(s))
    requires forall c | c in order :: c in p.chains
    ensures Verdict(p, s, order, Forky(p, s, order).0, Forky(p, s, order).1)
    decreases |order|
  {
    if order == [] {
      ForkyCurrentDecides(p, s);
    } else {
      var rest := order[1..];
      var (r, v) := Forky(p, s, order);
      ChainDecides(p, s, order);
      if PassedOver(p, order[0], s) {
        ForkyGives(p, s, rest);
        VerdictLater(p, s, order, r, v);
      } else {
        assert DecidedAt(p, s, order, 0, r, v);
      }
    }
  }

  lemma VerdictLater(p: Pool, s: Snippet, order: seq<Id>, r: Snippet, v: Placement)
    requires Acyclic(p) && p.current in p.chains && order != [] && forall c | c in order :: c in p.chains
    requires PassedOver(p, order[0], s) && Verdict(p, s, order[1..], r, v)
    ensures Verdict(p, s, order, r, v)
  {
    var rest := order[1..];
    if k :| DecidedAt(p, s, rest, k, r, v) {
      forall j | 0 <= j < k + 1
        ensures PassedOver(p, order[j], s)
      {
        if j > 0 { assert PassedOver(p, rest[j - 1], s); }
      }
      assert DecidedAt(p, s, order, k + 1, r, v);
    } else {
      forall j | 0 <= j < |order|
        ensures PassedOver(p, order[j], s)
      {
        if j > 0 { assert PassedOver(p, rest[j - 1], s); }
      }
    }
  }

  /** The code gives a verdict, and leaves that rest, exactly when the chains' blocks say so. */
  lemma ForkyExactly(p: Pool, s: Snippet, order: seq<Id>, r: Snippet, v: Placement)
    requires Inv(p) && SnippetOk(s) && s.tail < s.head && HashIdentifies(Held(p) + BlocksOf(s))
    requires forall c | c in order :: c in p.chains
    ensures Forky(p, s, order) == (r, v) <==> Verdict(p, s, order, r, v)
  {
    ForkyGives(p, s, order);
    if Verdict(p, s, order, r, v) {
      VerdictIsUnique(p, s, order, r, v, Forky(p, s, order).0, Forky(p, s, order).1);
    }
  }
}
