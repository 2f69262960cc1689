/** `loopAppendChains`: all snippets are placed, one after the other, each against the pool the ones
    before it left. Chains forked on the way are tried for the snippets after. */
module AppendLoop {
  import opened Blocks
  import opened ForkTree
  import opened Rerooting
  import opened PoolSteps
  import opened PoolMachine
  import opened PoolRuns
  import opened ForkSwitch
  import opened Attach

  /** The chains to try next: a new fork goes to the end of the list. */
  function NextOrder(p: Pool, s: Snippet, order: seq<Id>): seq<Id>
    requires Acyclic(p) && p.current in p.chains && SnippetOk(s)
    requires forall c | c in order :: c in p.chains
  {
    if Forky(p, s, order).1.ForkFrom? then order + [p.lastId + 1] else order
  }

  lemma PlaceKeepsOffered(p: Pool, s: Snippet, order: seq<Id>)
    requires Inv(p) && SnippetOk(s) && forall c | c in order :: c in p.chains
    ensures Inv(Place(p, s, order))
    ensures forall c | c in NextOrder(p, s, order) :: c in Place(p, s, order).chains
  {
    CurrentIsSound(p);
    PlaceContinues(p, s, order, p.current);
    PlaceKeepsKeys(p, s, order);
  }

  lemma PlaceKeepsKeys(p: Pool, s: Snippet, order: seq<Id>)
    requires Inv(p) && SnippetOk(s) && forall c | c in order :: c in p.chains
    ensures p.chains.Keys <= Place(p, s, order).chains.Keys
  {
    var (s', v) := Forky(p, s, order);
    if v.Append? && v.chain in p.chains { InsertSnippetKeys(p, v.chain, s'); }
  }

  lemma {:induction false} InsertSnippetKeys(p: Pool, c: Id, s: Snippet)
    requires c in p.chains && SnippetOk(s)
    ensures InsertSnippet(p, c, s).pool.chains.Keys == p.chains.Keys
    decreases s.head - s.tail
  {
    if s.tail < s.head {
      InsertSnippetStep(p, c, s);
      var w := s.blocks[s.tail + 1];
      if Takes(p, c, w) { InsertSnippetKeys(Insert(p, c, w), c, DropTail(s, w)); }
    }
  }

  /** What a verdict leaves of the rest in the table of snippets: what was not placed. */
  function Unsettled(p: Pool, r: Snippet, v: Placement): seq<Snippet>
    requires SnippetOk(r)
  {
    match v
    case ForkFrom(_) => []
    case Append(c) =>
      if c !in p.chains then [r]
      else
        var rest := InsertSnippet(p, c, r).rest;
        if rest.tail == rest.head then [] else [rest]
    case Known => []
    case Unplaced => [r]
    case NilHead => [r]
  }

  /** What a turn leaves there. */
  function LeftOver(p: Pool, s: Snippet, order: seq<Id>): seq<Snippet>
    requires Acyclic(p) && p.current in p.chains && SnippetOk(s)
    requires forall c | c in order :: c in p.chains
  {
    Unsettled(p, Forky(p, s, order).0, Forky(p, s, order).1)
  }

  /** The pool when the loop ends, the snippets left in the table, and whether it ended by
      dereferencing nil. */
  datatype Appended = Appended(pool: Pool, left: seq<Snippet>, crashed: bool)

  ghost function AppendAll(p: Pool, snippets: seq<Snippet>, order: seq<Id>): Appended
    requires Inv(p) && (forall c | c in order :: c in p.chains) && forall s | s in snippets :: SnippetOk(s)
    decreases |snippets|
  {
    if snippets == [] then Appended(p, [], false)
    else
      assert snippets[0] in snippets;
      if Forky(p, snippets[0], order).1.NilHead? then Appended(p, LeftOver(p, snippets[0], order) + snippets[1..], true)
      else
        PlaceKeepsOffered(p, snippets[0], order);
        var after := AppendAll(Place(p, snippets[0], order), snippets[1..], NextOrder(p, snippets[0], order));
        Appended(after.pool, LeftOver(p, snippets[0], order) + after.left, after.crashed)
  }

  /** A fork is only ever taken from current or from a chain that was offered. */
  lemma ForksFromTried(p: Pool, s: Snippet, order: seq<Id>)
    requires Inv(p) && SnippetOk(s) && forall c | c in order :: c in p.chains
    ensures Forky(p, s, order).1.ForkFrom? ==> Forky(p, s, order).1.parent == p.current || Forky(p, s, order).1.parent in order
  {
    ForkyIsFit(p, s, order);
  }

  /** Whatever the snippets are, whatever chains are offered and wherever the loop ends: the
      invariant is kept, and every complete chain goes on as it was. */
  lemma {:induction false} AppendAllContinues(p: Pool, snippets: seq<Snippet>, order: seq<Id>, id: Id)
    requires Inv(p) && (forall c | c in order :: c in p.chains) && forall s | s in snippets :: SnippetOk(s)
    requires id in p.chains && Sound(p, id)
    ensures Inv(AppendAll(p, snippets, order).pool) && Continues(p, AppendAll(p, snippets, order).pool, id)
    decreases |snippets|
  {
    SameContinues(p, p, id);
    if snippets != [] {
      var s, rest := snippets[0], snippets[1..];
      assert s in snippets;
      if !Forky(p, s, order).1.NilHead? {
        var q, next := Place(p, s, order), NextOrder(p, s, order);
        PlaceKeepsOffered(p, s, order);
        PlaceContinues(p, s, order, id);
        AppendAllContinues(q, rest, next, id);
        ContinuesTrans(p, q, AppendAll(q, rest, next).pool, id);
      }
    }
  }

  // ---------------------------------------------------------------- when the loop ends early

  lemma InsertKeepsHead(p: Pool, c: Id, w: Block, id: Id)
    requires Inv(p) && c in p.chains && id in p.chains && HasHead(p, id)
    ensures Inv(Insert(p, c, w)) && HasHead(Insert(p, c, w), id)
  {
    InsertKeepsInv(p, c, w);
    InsertKeeps(p, c, w, id, p.chains[id].head);
    if id == c && Takes(p, c, w) { OwnOrParent(Insert(p, c, w), c, w.height); }
  }

  lemma {:induction false} InsertSnippetKeepsHead(p: Pool, c: Id, s: Snippet, id: Id)
    requires Inv(p) && c in p.chains && SnippetOk(s) && id in p.chains && HasHead(p, id)
    ensures Inv(InsertSnippet(p, c, s).pool) && id in InsertSnippet(p, c, s).pool.chains
    ensures HasHead(InsertSnippet(p, c, s).pool, id)
    decreases s.head - s.tail
  {
    if s.tail < s.head && Takes(p, c, s.blocks[s.tail + 1]) {
      var w := s.blocks[s.tail + 1];
      DropTailOk(s);
      InsertKeepsHead(p, c, w, id);
      InsertSnippetKeepsHead(Insert(p, c, w), c, DropTail(s, w), id);
    }
  }

  /** A chain with a block at its head keeps one, and a new fork has one. */
  lemma PlaceKeepsHeads(p: Pool, s: Snippet, order: seq<Id>, id: Id)
    requires Inv(p) && SnippetOk(s) && forall c | c in order :: c in p.chains
    requires (id in p.chains && HasHead(p, id)) || (id == p.lastId + 1 && Forky(p, s, order).1.ForkFrom?)
    ensures Inv(Place(p, s, order)) && id in Place(p, s, order).chains && HasHead(Place(p, s, order), id)
  {
    PlaceKeepsOffered(p, s, order);
    ForkyIsFit(p, s, order);
    var (s', v) := Forky(p, s, order);
    var q := Place(p, s, order);
    if v.ForkFrom? {
      ForkTreeOk(p, v.parent, s');
      if id == p.lastId + 1 { OwnOrParent(q, id, s'.head); } else { ExtendsKeeps(p, q, id, p.chains[id].head); }
    }
    if v.Append? { InsertSnippetKeepsHead(p, v.chain, s', id); }
  }

  /** With a block at the head of every chain offered, no snippets make the loop dereference nil;
      and by SafeForEverySnippet no other condition on the chains will do. */
  lemma {:induction false} HeadsNeverCrash(p: Pool, snippets: seq<Snippet>, order: seq<Id>)
    requires Inv(p) && (forall c | c in order :: c in p.chains) && forall s | s in snippets :: SnippetOk(s)
    requires forall c | c in order :: HasHead(p, c)
    ensures !AppendAll(p, snippets, order).crashed
    decreases |snippets|
  {
    if snippets != [] {
      var s, rest := snippets[0], snippets[1..];
      assert s in snippets;
      HeadsAreSafe(p, s, order);
      PlaceKeepsOffered(p, s, order);
      var q, next := Place(p, s, order), NextOrder(p, s, order);
      forall c | c in next
        ensures HasHead(q, c)
      {
        PlaceKeepsHeads(p, s, order, c);
      }
      HeadsNeverCrash(q, rest, next);
    }
  }

  /** The loop runs to its end on these snippets. */
  ghost predicate RunsThrough(p: Pool, order: seq<Id>, snippets: seq<Snippet>)
    requires Inv(p) && forall c | c in order :: c in p.chains
  {
    (forall s | s in snippets :: SnippetOk(s)) ==> !AppendAll(p, snippets, order).crashed
  }

  lemma OneSnippetCrashes(p: Pool, order: seq<Id>, s: Snippet)
    requires Inv(p) && (forall c | c in order :: c in p.chains) && SnippetOk(s) && Forky(p, s, order).1.NilHead?
    ensures !RunsThrough(p, order, [s])
  {
    assert [s][0] == s;
  }

  lemma HeadsRunThrough(p: Pool, order: seq<Id>, snippets: seq<Snippet>)
    requires Inv(p) && (forall c | c in order :: c in p.chains) && forall c | c in order :: HasHead(p, c)
    ensures RunsThrough(p, order, snippets)
  {
    if forall s | s in snippets :: SnippetOk(s) { HeadsNeverCrash(p, snippets, order); }
  }

  lemma NoHeadCrashes(p: Pool, order: seq<Id>, c: Id)
    requires Inv(p) && (forall c | c in order :: c in p.chains) && c in order && !HasHead(p, c)
    ensures exists snippets :: !RunsThrough(p, order, snippets)
  {
    var s := StumblingSnippet(p, order, c);
    OneSnippetCrashes(p, order, s);
  }

  /** Whatever snippets come, the loop runs to its end exactly when every chain offered has a block
      at its head. */
  lemma NeverCrashesExactly(p: Pool, order: seq<Id>)
    requires Inv(p) && forall c | c in order :: c in p.chains
    ensures (forall snippets :: RunsThrough(p, order, snippets)) <==> (forall c | c in order :: HasHead(p, c))
  {
    if c :| c in order && !HasHead(p, c) {
      NoHeadCrashes(p, order, c);
    } else {
      forall snippets ensures RunsThrough(p, order, snippets) { HeadsRunThrough(p, order, snippets); }
    }
  }

  /** The first block of a new account with something below it ends the loop of a fresh pool. */
  lemma FreshPoolCrashes()
    ensures var s := Snippet(-1, "x", 0, "h", map[0 := Block(0, "h", "x")]);
            && SnippetOk(s) && Inv(Init([])) && 1 in Init([]).chains
            && AppendAll(Init([]), [s], [1]).crashed
  {
    var s := Snippet(-1, "x", 0, "h", map[0 := Block(0, "h", "x")]);
    FreshPoolCrashesExactly(s);
    assert [s][0] == s;
  }
}
