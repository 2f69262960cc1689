/** `loopAppendChains` over the pool's objects, proved against AppendLoop. */
module AppendChains {
  import opened Blocks
  import opened ForkTree
  import opened PoolSteps
  import opened PoolMachine
  import opened Attach
  import opened AppendLoop
  import opened ChainPools
  import opened SnippetChains

  /** The snippet as a value. */
  method Value(snippet: SnippetChain) returns (s: Snippet)
    ensures s == snippet.View()
  {
    s := Snippet(snippet.tailHeight, snippet.tailHash, snippet.headHeight, snippet.headHash, snippet.heightBlocks);
  }

  lemma OfferedIds(pool: ChainPool, chains: seq<ForkedChain>)
    requires pool.Valid() && Offered(pool, chains)
    ensures forall c | c in Ids(chains) :: c in pool.View().chains
  {
  }

  /** The chains of the pool after a turn: those there were, and new ones. */
  twostate predicate Grew(pool: ChainPool)
    reads pool
  {
    && old(pool.chains).Keys <= pool.chains.Keys
    && (forall id | id in old(pool.chains) :: pool.chains[id] == old(pool.chains)[id])
    && forall id | id in pool.chains && id !in old(pool.chains) :: fresh(pool.chains[id])
  }

  method ForkOff(pool: ChainPool, snippet: SnippetChain, chains: seq<ForkedChain>, c: Id) returns (next: seq<ForkedChain>)
    requires pool.Valid() && Offered(pool, chains) && SnippetOk(snippet.View()) && c in pool.chains
    modifies pool
    ensures pool.Valid() && Grew(pool) && Offered(pool, next)
    ensures pool.View() == Fork(old(pool.View()), c, old(snippet.View())) && Ids(next) == Ids(chains) + [old(pool.lastId) + 1]
  {
    var s := Value(snippet);
    var new' := pool.ForkChain(pool.chains[c], s);
    next := chains + [new'];
    assert next[..|next| - 1] == chains;
  }

  method PutOn(pool: ChainPool, snippet: SnippetChain, c: Id) returns (stays: bool)
    requires pool.Valid() && SnippetOk(snippet.View()) && c in pool.chains
    modifies pool.chains[c], snippet
    ensures pool.Valid() && c in old(pool.View()).chains
    ensures var i := InsertSnippet(old(pool.View()), c, old(snippet.View()));
            pool.View() == i.pool && snippet.View() == i.rest && (stays <==> i.rest.tail != i.rest.head)
  {
    assert pool.View().chains[c] == pool.chains[c].View();
    var _ := InsertSnippetInto(pool, pool.chains[c], snippet);
    stays := snippet.tailHeight != snippet.headHeight;
  }

  /** What is done with a verdict; `stays` tells whether the snippet is left in the table. */
  method ActOn(pool: ChainPool, snippet: SnippetChain, chains: seq<ForkedChain>, v: Placement, ghost p: Pool, ghost ids: seq<Id>)
    returns (next: seq<ForkedChain>, stays: bool)
    requires pool.Valid() && Offered(pool, chains) && SnippetOk(snippet.View())
    requires p == pool.View() && ids == Ids(chains)
    requires (v.ForkFrom? ==> v.parent in p.chains) && (v.Append? ==> v.chain in p.chains)
    modifies pool, pool.chains.Values, snippet
    ensures pool.Valid() && Grew(pool) && Offered(pool, next)
    ensures pool.View() == Act(p, old(snippet.View()), v)
    ensures Ids(next) == if v.ForkFrom? then ids + [p.lastId + 1] else ids
    ensures Unsettled(p, old(snippet.View()), v) == if stays then [snippet.View()] else []
  {
    next, stays := chains, v.Unplaced? || v.NilHead?;
    if v.ForkFrom? {
      next := ForkOff(pool, snippet, chains, v.parent);
    } else if v.Append? {
      stays := PutOn(pool, snippet, v.chain);
    }
  }

  lemma TurnIs(p: Pool, s: Snippet, ids: seq<Id>, r: Snippet, v: Placement)
    requires Inv(p) && SnippetOk(s) && (forall c | c in ids :: c in p.chains) && Forky(p, s, ids) == (r, v)
    ensures SnippetOk(r) && (v.ForkFrom? ==> v.parent in p.chains) && (v.Append? ==> v.chain in p.chains)
    ensures Place(p, s, ids) == Act(p, r, v) && LeftOver(p, s, ids) == Unsettled(p, r, v)
    ensures NextOrder(p, s, ids) == if v.ForkFrom? then ids + [p.lastId + 1] else ids
  {
    ForkyIsFit(p, s, ids);
  }

  /** One turn of the loop. */
  method PlaceOne(pool: ChainPool, snippet: SnippetChain, chains: seq<ForkedChain>, ghost p: Pool, ghost s: Snippet, ghost ids: seq<Id>)
    returns (next: seq<ForkedChain>, stays: bool, crashed: bool)
    requires pool.Valid() && Inv(p) && SnippetOk(s) && Offered(pool, chains)
    requires p == pool.View() && s == snippet.View() && ids == Ids(chains) && forall c | c in ids :: c in p.chains
    modifies pool, pool.chains.Values, snippet
    ensures pool.Valid() && Grew(pool) && Offered(pool, next)
    ensures crashed <==> Forky(p, s, ids).1.NilHead?
    ensures pool.View() == Place(p, s, ids) && Ids(next) == NextOrder(p, s, ids)
    ensures LeftOver(p, s, ids) == if stays then [snippet.View()] else []
  {
    var v := ForkyOf(pool, snippet, chains);
    TurnIs(p, s, ids, snippet.View(), v);
    crashed := v.NilHead?;
    next, stays := ActOn(pool, snippet, chains, v, p, ids);
  }

  /** What is still to come of the loop leads where the whole leads. */
  ghost predicate LeadsTo(out: Appended, p: Pool, vs: seq<Snippet>, ids: seq<Id>, done: seq<Snippet>) {
    && Inv(p) && (forall c | c in ids :: c in p.chains) && (forall s | s in vs :: SnippetOk(s))
    && var rest := AppendAll(p, vs, ids);
       out == Appended(rest.pool, done + rest.left, rest.crashed)
  }

  lemma LeadsOn(out: Appended, p: Pool, vs: seq<Snippet>, ids: seq<Id>, done: seq<Snippet>)
    requires LeadsTo(out, p, vs, ids, done) && vs != [] && vs[0] in vs
    ensures SnippetOk(vs[0])
    ensures if Forky(p, vs[0], ids).1.NilHead? then out.crashed && out.pool == p
            else LeadsTo(out, Place(p, vs[0], ids), vs[1..], NextOrder(p, vs[0], ids), done + LeftOver(p, vs[0], ids))
  {
    if !Forky(p, vs[0], ids).1.NilHead? { LeadsAfter(out, p, vs, ids, done); }
  }

  lemma LeadsAfter(out: Appended, p: Pool, vs: seq<Snippet>, ids: seq<Id>, done: seq<Snippet>)
    requires LeadsTo(out, p, vs, ids, done) && vs != [] && vs[0] in vs && !Forky(p, vs[0], ids).1.NilHead?
    ensures LeadsTo(out, Place(p, vs[0], ids), vs[1..], NextOrder(p, vs[0], ids), done + LeftOver(p, vs[0], ids))
  {
    PlaceKeepsOffered(p, vs[0], ids);
    var over, after := LeftOver(p, vs[0], ids), AppendAll(Place(p, vs[0], ids), vs[1..], NextOrder(p, vs[0], ids));
    assert AppendAll(p, vs, ids) == Appended(after.pool, over + after.left, after.crashed);
    assert done + (over + after.left) == done + over + after.left;
  }

  ghost predicate Distinct(snippets: seq<SnippetChain>) {
    forall i, j | 0 <= i < j < |snippets| :: snippets[i] != snippets[j]
  }

  /** The snippets hold what `vs` says, from the k-th on. */
  ghost predicate Holding(snippets: seq<SnippetChain>, vs: seq<Snippet>, k: int)
    reads snippets
  {
    |snippets| == |vs| && forall j | 0 <= k <= j < |vs| :: snippets[j].View() == vs[j]
  }

  /** None of `left` is still to come. */
  ghost predicate Apart(left: seq<SnippetChain>, snippets: seq<SnippetChain>, k: int) {
    forall i, j | 0 <= i < |left| && 0 <= k <= j < |snippets| :: left[i] != snippets[j]
  }

  lemma ApartFrom(left: seq<SnippetChain>, snippets: seq<SnippetChain>, k: int)
    requires Apart(left, snippets, k) && Distinct(snippets) && 0 <= k < |snippets|
    ensures Apart(left, snippets, k + 1) && Apart(left + [snippets[k]], snippets, k + 1)
  {
  }

  /** The turn of the k-th snippet, with what is left so far. */
  method LoopTurn(pool: ChainPool, snippets: seq<SnippetChain>, k: int, chains: seq<ForkedChain>, sofar: seq<SnippetChain>,
                  ghost vs: seq<Snippet>, ghost p: Pool, ghost ids: seq<Id>, ghost done: seq<Snippet>)
    returns (next: seq<ForkedChain>, left: seq<SnippetChain>, crashed: bool)
    requires pool.Valid() && Inv(p) && Offered(pool, chains) && p == pool.View() && ids == Ids(chains) && forall c | c in ids :: c in p.chains
    requires 0 <= k < |snippets| && Distinct(snippets) && Holding(snippets, vs, k) && SnippetOk(vs[k])
    requires Holding(sofar, done, 0) && Apart(sofar, snippets, k)
    modifies pool, pool.chains.Values, snippets[k]
    ensures pool.Valid() && Grew(pool) && Offered(pool, next)
    ensures crashed <==> Forky(p, vs[k], ids).1.NilHead?
    ensures pool.View() == Place(p, vs[k], ids) && Ids(next) == NextOrder(p, vs[k], ids)
    ensures Holding(snippets, vs, k + 1) && Apart(left, snippets, k + 1)
    ensures Holding(left, done + LeftOver(p, vs[k], ids), 0)
  {
    var stays;
    ApartFrom(sofar, snippets, k);
    next, stays, crashed := PlaceOne(pool, snippets[k], chains, p, vs[k], ids);
    left := if stays then sofar + [snippets[k]] else sofar;
  }

  lemma LeadsAtFirst(p: Pool, vs: seq<Snippet>, ids: seq<Id>)
    requires Inv(p) && (forall c | c in ids :: c in p.chains) && forall s | s in vs :: SnippetOk(s)
    ensures LeadsTo(AppendAll(p, vs, ids), p, vs[0..], ids, [])
  {
    assert vs[0..] == vs;
  }

  lemma LeadsNoFurther(out: Appended, q: Pool, vs: seq<Snippet>, ids: seq<Id>, done: seq<Snippet>)
    requires LeadsTo(out, q, vs, ids, done) && vs == []
    ensures out == Appended(q, done, false)
  {
    assert done + [] == done;
  }

  /** The snippets hold `vs` from the k-th on, and what is left so far holds `done`. */
  ghost predicate Tables(snippets: seq<SnippetChain>, vs: seq<Snippet>, k: int, left: seq<SnippetChain>, done: seq<Snippet>)
    reads snippets, left
  {
    Holding(snippets, vs, k) && Apart(left, snippets, k) && Holding(left, done, 0)
  }

  /** Where the loop stands: the pool, the chains offered, and what is left so far. */
  datatype Standing = Standing(p: Pool, ids: seq<Id>, done: seq<Snippet>)

  ghost predicate Turn(j: int) { 0 <= j }

  /** At turn k the loop is on the way to `out`. To read what that means, mention `Turn(k)`. */
  ghost predicate Going(out: Appended, vs: seq<Snippet>, k: int, at: Standing, crashed: bool) {
    forall j {:trigger Turn(j)} | Turn(j) && j == k ::
      if crashed then out.crashed && out.pool == at.p else j <= |vs| && LeadsTo(out, at.p, vs[j..], at.ids, at.done)
  }

  /** One turn, on the way to `out`. */
  method LoopStep(pool: ChainPool, snippets: seq<SnippetChain>, k: int, chains: seq<ForkedChain>, sofar: seq<SnippetChain>,
                  ghost out: Appended, ghost vs: seq<Snippet>, ghost at: Standing)
    returns (next: seq<ForkedChain>, left: seq<SnippetChain>, crashed: bool, ghost at': Standing)
    requires pool.Valid() && Offered(pool, chains) && at.p == pool.View() && at.ids == Ids(chains)
    requires 0 <= k < |snippets| && Distinct(snippets) && Tables(snippets, vs, k, sofar, at.done) && Going(out, vs, k, at, false)
    modifies pool, pool.chains.Values, snippets[k]
    ensures pool.Valid() && Grew(pool) && Offered(pool, next) && at'.p == pool.View() && at'.ids == Ids(next)
    ensures Tables(snippets, vs, k + 1, left, at'.done) && Going(out, vs, k + 1, at', crashed)
  {
    assert Turn(k);
    ghost var q, rest, done := at.p, at.ids, at.done;
    LeadsOn(out, q, vs[k..], rest, done);
    assert vs[k..][0] == vs[k] && vs[k..][1..] == vs[k + 1..];
    at' := Standing(Place(q, vs[k], rest), NextOrder(q, vs[k], rest), done + LeftOver(q, vs[k], rest));
    next, left, crashed := LoopTurn(pool, snippets, k, chains, sofar, vs, q, rest, done);
  }

  lemma GoneThrough(out: Appended, vs: seq<Snippet>, k: int, at: Standing, crashed: bool)
    requires 0 <= k && Going(out, vs, k, at, crashed) && (k == |vs| || crashed)
    ensures out.pool == at.p && out.crashed == crashed && (!crashed ==> out.left == at.done)
  {
    assert Turn(k);
    if !crashed { LeadsNoFurther(out, at.p, vs[k..], at.ids, at.done); }
  }

  /** The loop of `loopAppendChains`. */
  method AppendEach(pool: ChainPool, snippets: seq<SnippetChain>, offered: seq<ForkedChain>,
                    ghost out: Appended, ghost vs: seq<Snippet>, ghost start: Standing)
    returns (left: seq<SnippetChain>, crashed: bool, ghost at: Standing)
    requires pool.Valid() && Offered(pool, offered) && start == Standing(pool.View(), Ids(offered), [])
    requires Distinct(snippets) && Holding(snippets, vs, 0) && Going(out, vs, 0, start, false)
    modifies pool, pool.chains.Values, snippets
    ensures pool.Valid() && pool.View() == out.pool && crashed == out.crashed
    ensures Holding(left, at.done, 0) && (!crashed ==> at.done == out.left)
  {
    at := start;
    var k, chains := 0, offered;
    left, crashed := [], false;
    while k < |snippets| && !crashed
      invariant 0 <= k <= |snippets| && Grew(pool) && pool.Valid()
      invariant Offered(pool, chains) && at.p == pool.View() && at.ids == Ids(chains)
      invariant Tables(snippets, vs, k, left, at.done) && Going(out, vs, k, at, crashed)
    {
      chains, left, crashed, at := LoopStep(pool, snippets, k, chains, left, out, vs, at);
      k := k + 1;
    }
    GoneThrough(out, vs, k, at, crashed);
  }

  lemma GoingFirst(p: Pool, vs: seq<Snippet>, ids: seq<Id>)
    requires Inv(p) && (forall c | c in ids :: c in p.chains) && forall s | s in vs :: SnippetOk(s)
    ensures Going(AppendAll(p, vs, ids), vs, 0, Standing(p, ids, []), false)
  {
    LeadsAtFirst(p, vs, ids);
  }

  /** `loopAppendChains`: the pool, and the snippets left in the table, are as AppendLoop says. */
  method LoopAppendChains(pool: ChainPool, snippets: seq<SnippetChain>, offered: seq<ForkedChain>,
                          ghost p: Pool, ghost vs: seq<Snippet>, ghost ids: seq<Id>)
    returns (left: seq<SnippetChain>, crashed: bool)
    requires pool.Valid() && Offered(pool, offered) && Distinct(snippets) && Holding(snippets, vs, 0)
    requires p == pool.View() && ids == Ids(offered) && Inv(p) && (forall c | c in ids :: c in p.chains) && forall s | s in vs :: SnippetOk(s)
    modifies pool, pool.chains.Values, snippets
    ensures pool.Valid() && pool.View() == AppendAll(p, vs, ids).pool && crashed == AppendAll(p, vs, ids).crashed
    ensures !crashed ==> Holding(left, AppendAll(p, vs, ids).left, 0)
  {
    GoingFirst(p, vs, ids);
    ghost var at;
    left, crashed, at := AppendEach(pool, snippets, offered, AppendAll(p, vs, ids), vs, Standing(p, ids, []));
  }
}
