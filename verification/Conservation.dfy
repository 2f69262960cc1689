/** Money is conserved: the balances at the heads of all accounts, plus what has been sent and not
    yet received, is what the genesis accounts opened with. */
module Conservation {
  import opened Blocks
  import opened Accounts

  type Pos = (Addr, nat)

  ghost predicate InLedger(l: Ledger, p: Pos) {
    p.0 in l && p.1 < |l[p.0]|
  }

  ghost function BlockAt(l: Ledger, p: Pos): AccBlock
    requires InLedger(l, p)
  {
    l[p.0][p.1]
  }

  // ---------------------------------------------------------------- sums over positions

  ghost predicate AllIn(l: Ledger, ps: set<Pos>) {
    forall p | p in ps :: InLedger(l, p)
  }

  /** The sum of the modified amounts at the positions. */
  ghost function SumAt(l: Ledger, ps: set<Pos>): int
    requires AllIn(l, ps)
  {
    if ps == {} then 0
    else
      var p :| p in ps;
      BlockAt(l, p).modified + SumAt(l, ps - {p})
  }

  lemma {:induction false} SumAtLess(l: Ledger, ps: set<Pos>, p: Pos)
    requires AllIn(l, ps) && p in ps
    ensures SumAt(l, ps) == BlockAt(l, p).modified + SumAt(l, ps - {p})
    decreases |ps|
  {
    var q :| q in ps && SumAt(l, ps) == BlockAt(l, q).modified + SumAt(l, ps - {q});
    if q != p {
      SumAtLess(l, ps - {q}, p);
      SumAtLess(l, ps - {p}, q);
      assert ps - {q} - {p} == ps - {p} - {q};
    }
  }

  lemma {:induction false} SumAtUnion(l: Ledger, ps: set<Pos>, qs: set<Pos>)
    requires AllIn(l, ps) && AllIn(l, qs) && ps !! qs
    ensures SumAt(l, ps + qs) == SumAt(l, ps) + SumAt(l, qs)
    decreases |ps|
  {
    if ps == {} {
      assert ps + qs == qs;
    } else {
      var p :| p in ps;
      SumAtLess(l, ps, p);
      SumAtLess(l, ps + qs, p);
      assert ps + qs - {p} == (ps - {p}) + qs;
      SumAtUnion(l, ps - {p}, qs);
    }
  }

  // ---------------------------------------------------------------- heads

  /** The base of an account: what its first block holds beyond its own modified amount. */
  ghost function Base(l: Ledger, a: Addr): int
    requires a in l && l[a] != []
  {
    l[a][0].amount - l[a][0].modified
  }

  ghost function Prefix(a: Addr, n: nat): set<Pos> {
    set i: nat | i < n :: (a, i)
  }

  lemma {:induction false} AmountIsBasePlusModified(l: Ledger, a: Addr, n: nat)
    requires LedgerOk(l) && a in l && n < |l[a]|
    ensures AllIn(l, Prefix(a, n + 1))
    ensures l[a][n].amount == Base(l, a) + SumAt(l, Prefix(a, n + 1))
    decreases n
  {
    SumAtLess(l, Prefix(a, n + 1), (a, n));
    assert Prefix(a, n + 1) - {(a, n)} == Prefix(a, n);
    assert BlockOk(l, a, n);
    if n == 0 {
      assert Prefix(a, 0) == {};
    } else {
      AmountIsBasePlusModified(l, a, n - 1);
    }
  }

  ghost predicate Accounted(l: Ledger, addrs: set<Addr>) {
    forall a | a in addrs :: a in l && l[a] != []
  }

  ghost function HeadSum(l: Ledger, addrs: set<Addr>): int
    requires Accounted(l, addrs)
  {
    if addrs == {} then 0
    else
      var a :| a in addrs;
      Head(l, a).value.amount + HeadSum(l, addrs - {a})
  }

  ghost function BaseSum(l: Ledger, addrs: set<Addr>): int
    requires Accounted(l, addrs)
  {
    if addrs == {} then 0
    else
      var a :| a in addrs;
      Base(l, a) + BaseSum(l, addrs - {a})
  }

  lemma {:induction false} HeadSumLess(l: Ledger, addrs: set<Addr>, a: Addr)
    requires Accounted(l, addrs) && a in addrs
    ensures HeadSum(l, addrs) == Head(l, a).value.amount + HeadSum(l, addrs - {a})
    decreases |addrs|
  {
    var b :| b in addrs && HeadSum(l, addrs) == Head(l, b).value.amount + HeadSum(l, addrs - {b});
    if a != b {
      HeadSumLess(l, addrs - {b}, a);
      HeadSumLess(l, addrs - {a}, b);
      assert addrs - {a} - {b} == addrs - {b} - {a};
    }
  }

  lemma {:induction false} BaseSumLess(l: Ledger, addrs: set<Addr>, a: Addr)
    requires Accounted(l, addrs) && a in addrs
    ensures BaseSum(l, addrs) == Base(l, a) + BaseSum(l, addrs - {a})
    decreases |addrs|
  {
    var b :| b in addrs && BaseSum(l, addrs) == Base(l, b) + BaseSum(l, addrs - {b});
    if a != b {
      BaseSumLess(l, addrs - {b}, a);
      BaseSumLess(l, addrs - {a}, b);
      assert addrs - {a} - {b} == addrs - {b} - {a};
    }
  }

  ghost function Positions(l: Ledger, addrs: set<Addr>): set<Pos>
    requires addrs <= l.Keys
  {
    set a, i: nat | a in addrs && i < |l[a]| :: (a, i)
  }

  /** The head is the base plus everything that was ever modified. */
  ghost predicate Balanced(l: Ledger, a: Addr) {
    && a in l && l[a] != [] && AllIn(l, Prefix(a, |l[a]|))
    && Head(l, a).value.amount == Base(l, a) + SumAt(l, Prefix(a, |l[a]|))
  }

  lemma {:induction false} BalancesAddUp(l: Ledger, addrs: set<Addr>)
    requires addrs <= l.Keys && forall a | a in addrs :: Balanced(l, a)
    ensures AllIn(l, Positions(l, addrs)) && Accounted(l, addrs)
    ensures HeadSum(l, addrs) == BaseSum(l, addrs) + SumAt(l, Positions(l, addrs))
    decreases |addrs|
  {
    if addrs == {} {
      assert Positions(l, addrs) == {};
    } else {
      var a :| a in addrs;
      var rest := addrs - {a};
      BalancesAddUp(l, rest);
      HeadSumLess(l, addrs, a);
      BaseSumLess(l, addrs, a);
      OneAccountMore(l, rest, a);
      assert rest + {a} == addrs;
    }
  }

  /** Heads are bases plus everything that was ever modified, over any set of accounts. */
  lemma HeadsAreBasesPlusModified(l: Ledger, addrs: set<Addr>)
    requires LedgerOk(l) && addrs <= l.Keys
    ensures AllIn(l, Positions(l, addrs)) && Accounted(l, addrs)
    ensures HeadSum(l, addrs) == BaseSum(l, addrs) + SumAt(l, Positions(l, addrs))
  {
    forall a | a in addrs
      ensures Balanced(l, a)
    {
      AmountIsBasePlusModified(l, a, |l[a]| - 1);
    }
    BalancesAddUp(l, addrs);
  }

  lemma OneAccountMore(l: Ledger, rest: set<Addr>, a: Addr)
    requires rest <= l.Keys && a in l && a !in rest && AllIn(l, Positions(l, rest))
    ensures AllIn(l, Positions(l, rest + {a})) && AllIn(l, Prefix(a, |l[a]|))
    ensures SumAt(l, Positions(l, rest + {a})) == SumAt(l, Prefix(a, |l[a]|)) + SumAt(l, Positions(l, rest))
  {
    assert Positions(l, rest + {a}) == Prefix(a, |l[a]|) + Positions(l, rest);
    SumAtUnion(l, Prefix(a, |l[a]|), Positions(l, rest));
  }

  // ---------------------------------------------------------------- sends and receives

  ghost function All(l: Ledger): set<Pos> {
    Positions(l, l.Keys)
  }

  ghost function Receives(l: Ledger): set<Pos> {
    set p | p in All(l) && BlockAt(l, p).kind.Received?
  }

  ghost function Sends(l: Ledger): set<Pos> {
    set p | p in All(l) && BlockAt(l, p).kind.Send?
  }

  ghost predicate IsReceived(l: Ledger, hash: Hash) {
    exists p :: p in Receives(l) && BlockAt(l, p).sourceHash == hash
  }

  ghost function Unreceived(l: Ledger): set<Pos> {
    set p | p in Sends(l) && !IsReceived(l, BlockAt(l, p).hash)
  }

  /** Where the send of a receive is. */
  ghost function SourceOf(l: Ledger, p: Pos): (q: Pos)
    requires LedgerOk(l) && p in Receives(l)
    ensures q in Sends(l) && BlockAt(l, q).hash == BlockAt(l, p).sourceHash
    ensures BlockAt(l, q).modified + BlockAt(l, p).modified == 0
    ensures BlockAt(l, q).snapshotHeight <= BlockAt(l, p).snapshotHeight
    ensures BlockAt(l, q).to == p.0
  {
    assert BlockOk(l, p.0, p.1);
    (BlockAt(l, p).from, BlockAt(l, p).sourceHeight)
  }

  ghost function SourcesOf(l: Ledger, ps: set<Pos>): set<Pos>
    requires LedgerOk(l) && ps <= Receives(l)
  {
    set p | p in ps :: SourceOf(l, p)
  }

  lemma SourceNotShared(l: Ledger, p: Pos, rest: set<Pos>)
    requires LedgerOk(l) && ReceivedOnce(l) && p in Receives(l) && rest <= Receives(l) && p !in rest
    ensures SourceOf(l, p) !in SourcesOf(l, rest)
  {
    forall p' | p' in rest
      ensures SourceOf(l, p') != SourceOf(l, p)
    {
      assert BlockAt(l, p').sourceHash == BlockAt(l, SourceOf(l, p')).hash;
    }
  }

  lemma SourcesLess(l: Ledger, ps: set<Pos>, p: Pos)
    requires LedgerOk(l) && ps <= Receives(l) && p in ps
    ensures SourcesOf(l, ps) == SourcesOf(l, ps - {p}) + {SourceOf(l, p)}
  {
  }

  /** One receive more adds what its send takes. */
  lemma OneMoreCancels(l: Ledger, ps: set<Pos>, p: Pos)
    requires LedgerOk(l) && ReceivedOnce(l) && ps <= Receives(l) && p in ps
    requires AllIn(l, ps - {p}) && AllIn(l, SourcesOf(l, ps - {p})) && AllIn(l, ps) && AllIn(l, SourcesOf(l, ps))
    ensures SumAt(l, ps) + SumAt(l, SourcesOf(l, ps)) == SumAt(l, ps - {p}) + SumAt(l, SourcesOf(l, ps - {p}))
  {
    var q, rest := SourceOf(l, p), ps - {p};
    SumAtLess(l, ps, p);
    SourceNotShared(l, p, rest);
    SourcesLess(l, ps, p);
    SumAtLess(l, SourcesOf(l, ps), q);
    assert SourcesOf(l, ps) - {q} == SourcesOf(l, rest);
  }

  /** Each receive cancels its send. */
  lemma {:induction false} ReceivesCancel(l: Ledger, ps: set<Pos>)
    requires LedgerOk(l) && ReceivedOnce(l) && ps <= Receives(l)
    ensures AllIn(l, ps) && AllIn(l, SourcesOf(l, ps))
    ensures SumAt(l, ps) + SumAt(l, SourcesOf(l, ps)) == 0
    decreases |ps|
  {
    if ps == {} {
      assert SourcesOf(l, ps) == {};
    } else {
      var p :| p in ps;
      ReceivesCancel(l, ps - {p});
      OneMoreCancels(l, ps, p);
    }
  }

  lemma SendsSplit(l: Ledger)
    requires LedgerOk(l)
    ensures Sends(l) == Unreceived(l) + SourcesOf(l, Receives(l))
    ensures Unreceived(l) !! SourcesOf(l, Receives(l))
  {
    forall q | q in Sends(l) && IsReceived(l, BlockAt(l, q).hash)
      ensures q in SourcesOf(l, Receives(l))
    {
      var p :| p in Receives(l) && BlockAt(l, p).sourceHash == BlockAt(l, q).hash;
      assert SourceOf(l, p) == q;
    }
  }

  // ---------------------------------------------------------------- conservation

  ghost function HeadTotal(l: Ledger): int
    requires LedgerOk(l)
  {
    HeadSum(l, l.Keys)
  }

  /** What has been sent and not received: sends carry negative modified amounts. */
  ghost function InFlight(l: Ledger): int
    requires LedgerOk(l)
  {
    -SumAt(l, Unreceived(l))
  }

  ghost function Opened(l: Ledger): int
    requires LedgerOk(l)
  {
    BaseSum(l, l.Keys)
  }

  lemma OthersModifyNothing(l: Ledger)
    requires LedgerOk(l)
    ensures AllIn(l, All(l) - Sends(l) - Receives(l)) && SumAt(l, All(l) - Sends(l) - Receives(l)) == 0
  {
    var rest := All(l) - Sends(l) - Receives(l);
    forall p | p in rest
      ensures InLedger(l, p) && BlockAt(l, p).modified == 0
    {
      assert BlockOk(l, p.0, p.1);
    }
    SumOfZeros(l, rest);
  }

  lemma {:induction false} SumOfZeros(l: Ledger, ps: set<Pos>)
    requires AllIn(l, ps) && forall p | p in ps :: BlockAt(l, p).modified == 0
    ensures SumAt(l, ps) == 0
    decreases |ps|
  {
    if ps != {} {
      var p :| p in ps;
      SumAtLess(l, ps, p);
      SumOfZeros(l, ps - {p});
    }
  }

  /** In any well-formed ledger in which no send is received twice, the heads and what is in flight
      add up to what the accounts opened with. */
  lemma MoneyIsConserved(l: Ledger)
    requires LedgerOk(l) && ReceivedOnce(l)
    ensures HeadTotal(l) + InFlight(l) == Opened(l)
  {
    HeadsAreBasesPlusModified(l, l.Keys);
    var rest := All(l) - Sends(l) - Receives(l);
    OthersModifyNothing(l);
    assert All(l) == rest + (Sends(l) + Receives(l));
    SumAtUnion(l, rest, Sends(l) + Receives(l));
    SumAtUnion(l, Sends(l), Receives(l));
    SendsSplit(l);
    SumAtUnion(l, Unreceived(l), SourcesOf(l, Receives(l)));
    ReceivesCancel(l, Receives(l));
  }

  // ---------------------------------------------------------------- runs of verified inserts

  /** The sum over accounts does not notice a block that opens nothing. */
  lemma {:induction false} BaseSumKept(l: Ledger, l': Ledger, addrs: set<Addr>)
    requires Accounted(l, addrs) && Accounted(l', addrs)
    requires forall a | a in addrs :: Base(l', a) == Base(l, a)
    ensures BaseSum(l', addrs) == BaseSum(l, addrs)
    decreases |addrs|
  {
    if addrs != {} {
      var a :| a in addrs;
      BaseSumLess(l, addrs, a);
      BaseSumLess(l', addrs, a);
      BaseSumKept(l, l', addrs - {a});
    }
  }

  lemma BasesStay(l: Ledger, b: AccBlock)
    requires LedgerOk(l) && LedgerOk(Insert(l, b))
    ensures Accounted(l, l.Keys) && Accounted(Insert(l, b), l.Keys) && BaseSum(Insert(l, b), l.Keys) == BaseSum(l, l.Keys)
  {
    BaseSumKept(l, Insert(l, b), l.Keys);
  }

  /** An insert opens no money. */
  lemma InsertOpensNothing(l: Ledger, b: AccBlock)
    requires LedgerOk(l) && Candidate(l, b) && Verified(l, b)
    ensures LedgerOk(Insert(l, b)) && Opened(Insert(l, b)) == Opened(l)
  {
    InsertKeepsOk(l, b);
    var l', a := Insert(l, b), b.signer;
    BasesStay(l, b);
    if a in l {
      assert l'.Keys == l.Keys;
    } else {
      BaseSumLess(l', l'.Keys, a);
      assert l'.Keys - {a} == l.Keys;
      assert BlockOk(l', a, 0);
    }
  }

  /** Block i of the signer received already what the block receives, out of sight of the lookup for
      an earlier receive: that does not look at height 0, and looks in the account that the block
      names as receiver. */
  predicate Hides(l: Ledger, b: AccBlock, i: int) {
    && b.signer in l && 0 <= i < |l[b.signer]| && IsReceiveOf(l[b.signer][i], b.sourceHash)
    && (i == 0 || b.to != b.signer)
  }

  /** The block receives what its signer has received already, and the verifier overlooks it. */
  ghost predicate Overlooked(l: Ledger, b: AccBlock) {
    b.kind.Received? && exists i :: Hides(l, b, i)
  }

  lemma {:induction false} BySourceFinds(c: seq<AccBlock>, n: nat, source: Hash)
    requires n <= |c|
    ensures BySource(c, n, source).None? <==>
            forall i | 1 <= i < n :: !(c[i].kind.Received? && c[i].sourceHash == source)
    ensures var r := BySource(c, n, source);
            r.Some? ==> 1 <= r.value < n && c[r.value].kind.Received? && c[r.value].sourceHash == source
                        && forall i | r.value < i < n :: !(c[i].kind.Received? && c[i].sourceHash == source)
  {
    if n > 1 && !(c[n - 1].kind.Received? && c[n - 1].sourceHash == source) { BySourceFinds(c, n - 1, source); }
  }

  /** What a verified block receives was received before, if at all, by its signer, and out of sight. */
  lemma VerifiedRepeats(l: Ledger, b: AccBlock, a: Addr, i: nat)
    requires LedgerOk(l) && Candidate(l, b) && Verified(l, b) && b.kind.Received?
    requires a in l && i < |l[a]| && IsReceiveOf(l[a][i], b.sourceHash)
    ensures a == b.signer && Hides(l, b, i)
  {
    var s := ByHeight(l, b.from, b.sourceHeight);
    assert BlockOk(l, a, i);
    var r := l[a][i];
    assert l[r.from][r.sourceHeight].hash == l[b.from][b.sourceHeight].hash;
    BySourceFinds(l[a], |l[a]|, b.sourceHash);
  }

  /** No send is received twice after a verified insert exactly when the block does not receive what
      its signer has received already, at height 0 or with another account named as receiver. */
  lemma InsertKeepsOnceExactly(l: Ledger, b: AccBlock)
    requires LedgerOk(l) && ReceivedOnce(l) && Candidate(l, b) && Verified(l, b)
    ensures ReceivedOnce(Insert(l, b)) <==> !Overlooked(l, b)
  {
    var l', a := Insert(l, b), b.signer;
    var n := |l'[a]| - 1;
    assert l'[a][n] == b;
    if Overlooked(l, b) {
      var i :| Hides(l, b, i);
      assert l'[a][i] == l[a][i] && n > i;
      assert l'[a][i].sourceHash == l'[a][n].sourceHash;
    } else {
      forall x, i, y, j | x in l' && 0 <= i < |l'[x]| && y in l' && 0 <= j < |l'[y]|
                          && l'[x][i].kind.Received? && l'[y][j].kind.Received?
                          && l'[x][i].sourceHash == l'[y][j].sourceHash
        ensures x == y && i == j
      {
        if (x, i) == (a, n) && (y, j) != (a, n) { VerifiedRepeats(l, b, y, j); }
        if (x, i) != (a, n) && (y, j) == (a, n) { VerifiedRepeats(l, b, x, i); }
      }
    }
  }

  datatype Run = Start(h: Hash, k: Hash) | Then(run: Run, block: AccBlock)

  function GenesisBlock(a: Addr, hash: Hash): AccBlock {
    AccBlock(0, hash, "", a, 200, 0, 0, "", Genesis, a, a, "", -1)
  }

  const VITESHAN: Addr := "viteshan"
  const JIE: Addr := "jie"

  /** The two accounts the store opens with; `h` and `k` are the hashes of their blocks. */
  function GenesisLedger(h: Hash, k: Hash): Ledger {
    map[VITESHAN := [GenesisBlock(VITESHAN, h)], JIE := [GenesisBlock(JIE, k)]]
  }

  function After(r: Run): Ledger {
    match r
    case Start(h, k) => GenesisLedger(h, k)
    case Then(run, b) => Insert(After(run), b)
  }

  /** Every block was a candidate, verified against the ledger it met, and received nothing
      a second time. */
  ghost predicate GoodRun(r: Run) {
    match r
    case Start(h, k) => h != k
    case Then(run, b) =>
      GoodRun(run) && Candidate(After(run), b) && Verified(After(run), b) && !Overlooked(After(run), b)
  }

  lemma GenesisIsOk(h: Hash, k: Hash)
    requires h != k
    ensures LedgerOk(GenesisLedger(h, k)) && ReceivedOnce(GenesisLedger(h, k)) && Opened(GenesisLedger(h, k)) == 400
  {
    var l: Ledger := GenesisLedger(h, k);
    assert VITESHAN[0] != JIE[0];
    forall a, i | a in l && 0 <= i < |l[a]|
      ensures BlockOk(l, a, i)
    {
    }
    BaseSumLess(l, l.Keys, VITESHAN);
    assert l.Keys - {VITESHAN} == {JIE};
    BaseSumLess(l, {JIE}, JIE);
    assert {JIE} - {JIE} == {};
  }

  lemma {:induction false} RunKeepsOk(r: Run)
    requires GoodRun(r)
    ensures LedgerOk(After(r)) && ReceivedOnce(After(r)) && Opened(After(r)) == 400
  {
    match r
    case Start(h, k) => GenesisIsOk(h, k);
    case Then(run, b) =>
      RunKeepsOk(run);
      InsertOpensNothing(After(run), b);
      InsertKeepsOnceExactly(After(run), b);
  }

  // ---------------------------------------------------------------- and exactly when

  lemma {:induction false} HeadSumKept(l: Ledger, l': Ledger, addrs: set<Addr>)
    requires Accounted(l, addrs) && Accounted(l', addrs)
    requires forall a | a in addrs :: Head(l', a) == Head(l, a)
    ensures HeadSum(l', addrs) == HeadSum(l, addrs)
    decreases |addrs|
  {
    if addrs != {} {
      var a :| a in addrs;
      HeadSumLess(l, addrs, a);
      HeadSumLess(l', addrs, a);
      HeadSumKept(l, l', addrs - {a});
    }
  }

  lemma {:induction false} SumAtKept(l: Ledger, l': Ledger, ps: set<Pos>)
    requires AllIn(l, ps) && AllIn(l', ps) && forall p | p in ps :: BlockAt(l', p) == BlockAt(l, p)
    ensures SumAt(l', ps) == SumAt(l, ps)
    decreases |ps|
  {
    if ps != {} {
      var p :| p in ps;
      SumAtLess(l, ps, p);
      SumAtLess(l', ps, p);
      SumAtKept(l, l', ps - {p});
    }
  }

  lemma OtherHeadsStay(l: Ledger, b: AccBlock)
    ensures forall a | a in l && a != b.signer :: a in Insert(l, b) && Head(Insert(l, b), a) == Head(l, a)
  {
  }

  /** A verified insert adds its modified amount to the heads. */
  lemma HeadsGrow(l: Ledger, b: AccBlock)
    requires LedgerOk(l) && Candidate(l, b) && Verified(l, b)
    ensures LedgerOk(Insert(l, b)) && HeadTotal(Insert(l, b)) == HeadTotal(l) + b.modified
  {
    InsertKeepsOk(l, b);
    var l', a := Insert(l, b), b.signer;
    OtherHeadsStay(l, b);
    HeadSumLess(l', l'.Keys, a);
    assert BlockOk(l', a, |l'[a]| - 1) && Head(l', a) == Some(b);
    if a in l {
      assert l'.Keys == l.Keys;
      HeadSumLess(l, l.Keys, a);
      HeadSumKept(l, l', l.Keys - {a});
    } else {
      assert l'.Keys - {a} == l.Keys;
      HeadSumKept(l, l', l.Keys);
    }
  }

  /** Where the new block is. */
  function NewPos(l: Ledger, b: AccBlock): Pos {
    (b.signer, if b.signer in l then |l[b.signer]| else 0)
  }

  lemma PositionsGrow(l: Ledger, b: AccBlock)
    requires LedgerOk(l)
    ensures All(Insert(l, b)) == All(l) + {NewPos(l, b)} && NewPos(l, b) !in All(l)
    ensures BlockAt(Insert(l, b), NewPos(l, b)) == b
    ensures forall p | p in All(l) :: BlockAt(Insert(l, b), p) == BlockAt(l, p)
  {
  }

  /** What is received afterwards is what was received before, and what the block receives. */
  lemma ReceivedGrows(l: Ledger, b: AccBlock, hash: Hash)
    requires LedgerOk(l)
    ensures IsReceived(Insert(l, b), hash) <==> IsReceived(l, hash) || (b.kind.Received? && b.sourceHash == hash)
  {
    var l', n := Insert(l, b), NewPos(l, b);
    PositionsGrow(l, b);
    if p :| p in Receives(l) && BlockAt(l, p).sourceHash == hash {
      assert p in Receives(l') && BlockAt(l', p).sourceHash == hash;
    }
    if b.kind.Received? && b.sourceHash == hash { assert n in Receives(l') && BlockAt(l', n).sourceHash == hash; }
    if p :| p in Receives(l') && BlockAt(l', p).sourceHash == hash {
      assert p == n || (p in Receives(l) && BlockAt(l, p).sourceHash == hash);
    }
  }

  /** A block that receives again takes nothing out of flight. */
  lemma RepeatKeepsFlight(l: Ledger, b: AccBlock)
    requires LedgerOk(l) && LedgerOk(Insert(l, b)) && Overlooked(l, b)
    ensures InFlight(Insert(l, b)) == InFlight(l)
  {
    var l' := Insert(l, b);
    PositionsGrow(l, b);
    assert Sends(l') == Sends(l);
    var i :| Hides(l, b, i);
    assert (b.signer, i) in Receives(l) && BlockAt(l, (b.signer, i)).sourceHash == b.sourceHash;
    forall p | p in Sends(l)
      ensures p in Unreceived(l') <==> p in Unreceived(l)
    {
      ReceivedGrows(l, b, BlockAt(l, p).hash);
    }
    assert Unreceived(l') == Unreceived(l);
    SumAtKept(l, l', Unreceived(l));
  }

  lemma NewSendIsUnreceived(l: Ledger, b: AccBlock)
    requires LedgerOk(l) && Candidate(l, b)
    ensures !IsReceived(l, b.hash)
  {
    forall p | p in Receives(l)
      ensures BlockAt(l, p).sourceHash != b.hash
    {
      assert BlockAt(l, SourceOf(l, p)).hash != b.hash;
    }
  }

  /** A send is put in flight. */
  lemma SendFlies(l: Ledger, b: AccBlock)
    requires LedgerOk(l) && LedgerOk(Insert(l, b)) && Candidate(l, b) && b.kind.Send?
    ensures InFlight(Insert(l, b)) == InFlight(l) - b.modified
  {
    var l', n := Insert(l, b), NewPos(l, b);
    PositionsGrow(l, b);
    NewSendIsUnreceived(l, b);
    forall p | p in Sends(l')
      ensures p in Unreceived(l') <==> p == n || p in Unreceived(l)
    {
      ReceivedGrows(l, b, BlockAt(l', p).hash);
    }
    assert Unreceived(l') == Unreceived(l) + {n};
    SumAtLess(l', Unreceived(l'), n);
    assert Unreceived(l') - {n} == Unreceived(l);
    SumAtKept(l, l', Unreceived(l));
  }

  /** A receive of something not received before takes its send out of flight. */
  lemma ReceiveLands(l: Ledger, b: AccBlock)
    requires LedgerOk(l) && LedgerOk(Insert(l, b)) && Candidate(l, b) && Verified(l, b)
    requires b.kind.Received? && !Overlooked(l, b)
    ensures InFlight(Insert(l, b)) == InFlight(l) - b.modified
  {
    var l', n := Insert(l, b), NewPos(l, b);
    PositionsGrow(l, b);
    assert n in Receives(l') && BlockOk(l', n.0, n.1);
    var q := SourceOf(l', n);
    assert q in Sends(l) && BlockAt(l, q).hash == b.sourceHash;
    NotReceivedBefore(l, b);
    forall p | p in Sends(l)
      ensures p in Unreceived(l) <==> p == q || p in Unreceived(l')
    {
      ReceivedGrows(l, b, BlockAt(l, p).hash);
    }
    assert Unreceived(l) == Unreceived(l') + {q};
    SumAtLess(l, Unreceived(l), q);
    ReceivedGrows(l, b, BlockAt(l, q).hash);
    assert Unreceived(l) - {q} == Unreceived(l');
    SumAtKept(l, l', Unreceived(l'));
  }

  lemma NotReceivedBefore(l: Ledger, b: AccBlock)
    requires LedgerOk(l) && Candidate(l, b) && Verified(l, b) && b.kind.Received? && !Overlooked(l, b)
    ensures !IsReceived(l, b.sourceHash)
  {
    if IsReceived(l, b.sourceHash) {
      var p :| p in Receives(l) && BlockAt(l, p).sourceHash == b.sourceHash;
      VerifiedRepeats(l, b, p.0, p.1);
    }
  }

  /** A verified insert changes the sum of the balances and the money in flight by nothing, unless it
      receives again out of the lookup's sight; then by the amount received. */
  lemma InsertAdds(l: Ledger, b: AccBlock)
    requires LedgerOk(l) && Candidate(l, b) && Verified(l, b)
    ensures LedgerOk(Insert(l, b))
    ensures HeadTotal(Insert(l, b)) + InFlight(Insert(l, b))
         == HeadTotal(l) + InFlight(l) + if Overlooked(l, b) then b.modified else 0
  {
    HeadsGrow(l, b);
    if Overlooked(l, b) {
      RepeatKeepsFlight(l, b);
    } else if b.kind.Send? {
      SendFlies(l, b);
    } else {
      ReceiveLands(l, b);
    }
  }

  /** So it conserves money exactly when it does not do that for a positive amount. */
  lemma InsertConservesExactly(l: Ledger, b: AccBlock)
    requires LedgerOk(l) && Candidate(l, b) && Verified(l, b)
    ensures LedgerOk(Insert(l, b))
    ensures HeadTotal(Insert(l, b)) + InFlight(Insert(l, b)) == HeadTotal(l) + InFlight(l)
       <==> !(Overlooked(l, b) && b.modified > 0)
  {
    InsertAdds(l, b);
    if Overlooked(l, b) { assert BlockOk(Insert(l, b), b.signer, |l[b.signer]|); }
  }

  // ---------------------------------------------------------------- over whole runs

  /** Every block was a candidate and verified against the ledger it met. */
  ghost predicate VerifiedRun(r: Run) {
    match r
    case Start(h, k) => h != k
    case Then(run, b) => VerifiedRun(run) && Candidate(After(run), b) && Verified(After(run), b)
  }

  /** What was received a second time. */
  ghost function Repeated(r: Run): int {
    match r
    case Start(_, _) => 0
    case Then(run, b) => Repeated(run) + if Overlooked(After(run), b) then b.modified else 0
  }

  /** On every run of verified inserts the balances and the money in flight add up to 400 and what
      was received a second time. */
  lemma {:induction false} EveryRunConserves(r: Run)
    requires VerifiedRun(r)
    ensures LedgerOk(After(r)) && HeadTotal(After(r)) + InFlight(After(r)) == 400 + Repeated(r) && Repeated(r) >= 0
  {
    match r
    case Start(h, k) =>
      GenesisIsOk(h, k);
      MoneyIsConserved(After(r));
    case Then(run, b) =>
      EveryRunConserves(run);
      InsertAdds(After(run), b);
      if Overlooked(After(run), b) { assert BlockOk(After(r), b.signer, |After(run)[b.signer]|); }
  }

  /** A run without overlooked receives is one on which nothing is received a second time. */
  lemma {:induction false} GoodRunRepeatsNothing(r: Run)
    requires GoodRun(r)
    ensures VerifiedRun(r) && Repeated(r) == 0
  {
    if r.Then? { GoodRunRepeatsNothing(r.run); }
  }

  // ---------------------------------------------------------------- balances

  lemma {:induction false} HeadSumBounds(l: Ledger, addrs: set<Addr>, a: Addr)
    requires LedgerOk(l) && addrs <= l.Keys && a in addrs
    ensures Accounted(l, addrs) && 0 <= Head(l, a).value.amount <= HeadSum(l, addrs)
    decreases |addrs|
  {
    assert Accounted(l, addrs);
    HeadSumLess(l, addrs, a);
    HeadIsNotNegative(l, a);
    if addrs != {a} {
      var b :| b in addrs - {a};
      HeadSumBounds(l, addrs - {a}, b);
    } else {
      assert addrs - {a} == {};
    }
  }

  lemma HeadIsNotNegative(l: Ledger, a: Addr)
    requires LedgerOk(l) && a in l
    ensures l[a] != [] && Head(l, a).value.amount >= 0
  {
    assert BlockOk(l, a, |l[a]| - 1);
  }

  lemma {:induction false} FlightIsNotNegative(l: Ledger, ps: set<Pos>)
    requires LedgerOk(l) && ps <= Sends(l)
    ensures AllIn(l, ps) && SumAt(l, ps) <= 0
    decreases |ps|
  {
    if ps != {} {
      var p :| p in ps;
      SumAtLess(l, ps, p);
      assert BlockOk(l, p.0, p.1);
      FlightIsNotNegative(l, ps - {p});
    }
  }

  /** No balance is ever negative or above the 400 the ledger opened with and what was received a
      second time. */
  lemma EveryBalanceIsBounded(r: Run, a: Addr)
    requires VerifiedRun(r) && a in After(r)
    ensures LedgerOk(After(r)) && 0 <= Head(After(r), a).value.amount <= 400 + Repeated(r)
  {
    var l := After(r);
    EveryRunConserves(r);
    HeadSumBounds(l, l.Keys, a);
    FlightIsNotNegative(l, Unreceived(l));
  }

  // ---------------------------------------------------------------- an input that breaks it

  const CAROL: Addr := "carol"

  function Sent(): AccBlock {
    AccBlock(1, "s", "h", VITESHAN, 170, -30, 0, "g", Send, VITESHAN, CAROL, "", -1)
  }

  function FirstReceive(): AccBlock {
    AccBlock(0, "r", "", CAROL, 30, 30, 0, "g", Received, VITESHAN, CAROL, "s", 1)
  }

  function SecondReceive(): AccBlock {
    AccBlock(1, "q", "r", CAROL, 60, 30, 0, "g", Received, VITESHAN, CAROL, "s", 1)
  }

  function OnceSent(): Ledger {
    map[VITESHAN := [GenesisBlock(VITESHAN, "h"), Sent()], JIE := [GenesisBlock(JIE, "k")]]
  }

  function OnceReceived(): Ledger {
    OnceSent()[CAROL := [FirstReceive()]]
  }

  ghost predicate NewHash(l: Ledger, hash: Hash) {
    forall a, i | a in l && 0 <= i < |l[a]| :: l[a][i].hash != hash
  }

  /** What makes a block a good one on top of an account. */
  lemma GoodOnTop(l: Ledger, b: AccBlock, head: AccBlock)
    requires Head(l, b.signer) == Some(head) && NewHash(l, b.hash) && b.kind.Send?
    requires b.preHash == head.hash && b.height == head.height + 1 && head.snapshotHeight <= b.snapshotHeight
    requires b.modified <= 0 && head.amount + b.modified == b.amount > 0
    ensures Candidate(l, b) && Verified(l, b) && !Overlooked(l, b)
  {
  }

  /** And as the first block of one. */
  lemma GoodOpening(l: Ledger, b: AccBlock, s: AccBlock)
    requires b.signer !in l && NewHash(l, b.hash) && b.kind.Received? && b.to == b.signer
    requires b.height == 0 && b.preHash == "" && b.modified == b.amount
    requires ByHeight(l, b.from, b.sourceHeight) == Some(s) && s.kind.Send? && s.to == b.signer && s.hash == b.sourceHash
    requires s.snapshotHeight <= b.snapshotHeight && s.modified + b.modified == 0
    ensures Candidate(l, b) && Verified(l, b) && !Overlooked(l, b)
  {
  }

  /** And as the first receive after a block of genesis type. */
  lemma GoodReceive(l: Ledger, b: AccBlock, head: AccBlock, s: AccBlock)
    requires b.signer in l && l[b.signer] == [head] && head.kind.Genesis? && NewHash(l, b.hash)
    requires b.kind.Received? && b.to == b.signer
    requires b.preHash == head.hash && b.height == head.height + 1 == 1 && head.snapshotHeight <= b.snapshotHeight
    requires b.modified >= 0 && head.amount + b.modified == b.amount > 0
    requires ByHeight(l, b.from, b.sourceHeight) == Some(s) && s.kind.Send? && s.to == b.signer && s.hash == b.sourceHash
    requires s.snapshotHeight <= b.snapshotHeight && s.modified + b.modified == 0
    ensures Candidate(l, b) && Verified(l, b) && !Overlooked(l, b)
  {
  }

  /** A second block on one of two accounts. */
  lemma SecondOfTwo(a: Addr, c: Addr, x: AccBlock, other: seq<AccBlock>, b: AccBlock)
    requires a != c && b.signer == a
    ensures Insert(map[a := [x], c := other], b) == map[a := [x, b], c := other]
    ensures Insert(map[c := other, a := [x]], b) == map[c := other, a := [x, b]]
  {
    assert [x] + [b] == [x, b];
  }

  lemma SendIsGood()
    ensures var l := GenesisLedger("h", "k");
            Candidate(l, Sent()) && Verified(l, Sent()) && !Overlooked(l, Sent()) && Insert(l, Sent()) == OnceSent()
  {
    assert VITESHAN[0] == 'v' && JIE[0] == 'j' && "h"[0] == 'h' && "k"[0] == 'k' && "s"[0] == 's';
    GoodOnTop(GenesisLedger("h", "k"), Sent(), GenesisBlock(VITESHAN, "h"));
    SecondOfTwo(VITESHAN, JIE, GenesisBlock(VITESHAN, "h"), [GenesisBlock(JIE, "k")], Sent());
  }

  lemma FirstReceiveIsGood()
    ensures Candidate(OnceSent(), FirstReceive()) && Verified(OnceSent(), FirstReceive())
    ensures !Overlooked(OnceSent(), FirstReceive()) && Insert(OnceSent(), FirstReceive()) == OnceReceived()
  {
    assert VITESHAN[0] == 'v' && JIE[0] == 'j' && CAROL[0] == 'c';
    assert "h"[0] == 'h' && "k"[0] == 'k' && "s"[0] == 's' && "r"[0] == 'r';
    GoodOpening(OnceSent(), FirstReceive(), Sent());
    assert [] + [FirstReceive()] == [FirstReceive()];
  }

  /** What makes a receive good again on top of the one that opened its account. */
  lemma GoodAgain(l: Ledger, b: AccBlock, first: AccBlock, s: AccBlock)
    requires b.signer in l && l[b.signer] == [first] && first.kind.Received? && first.sourceHash == b.sourceHash
    requires NewHash(l, b.hash) && b.kind.Received? && b.to == b.signer
    requires b.preHash == first.hash && b.height == first.height + 1 && b.height != 0 && first.snapshotHeight <= b.snapshotHeight
    requires b.modified >= 0 && first.amount + b.modified == b.amount > 0
    requires ByHeight(l, b.from, b.sourceHeight) == Some(s) && s.kind.Send? && s.to == b.signer && s.hash == b.sourceHash
    requires s.snapshotHeight <= b.snapshotHeight && s.modified + b.modified == 0
    ensures Candidate(l, b) && Verify(l, b, {}, true) == SUCCESS && Overlooked(l, b)
  {
    assert Hides(l, b, 0);
  }

  lemma SecondReceiveIsNew()
    ensures NewHash(OnceReceived(), SecondReceive().hash) && CAROL in OnceReceived()
    ensures OnceReceived()[CAROL] == [FirstReceive()] && ByHeight(OnceReceived(), VITESHAN, 1) == Some(Sent())
  {
    assert VITESHAN[0] == 'v' && JIE[0] == 'j' && CAROL[0] == 'c';
    assert "h"[0] == 'h' && "k"[0] == 'k' && "s"[0] == 's' && "r"[0] == 'r' && "q"[0] == 'q';
    var l := OnceReceived();
    assert l[VITESHAN] == OnceSent()[VITESHAN] && l[CAROL] == [FirstReceive()];
  }

  lemma SecondReceiveIsAccepted()
    ensures var l := OnceReceived();
            Candidate(l, SecondReceive()) && Verify(l, SecondReceive(), {}, true) == SUCCESS && Overlooked(l, SecondReceive())
  {
    SecondReceiveIsNew();
    GoodAgain(OnceReceived(), SecondReceive(), FirstReceive(), Sent());
  }

  /** After an account has been opened by a receive, the verifier accepts a second receive of the
      same send. */
  lemma RepeatIsAccepted()
    ensures var r := Then(Then(Start("h", "k"), Sent()), FirstReceive());
            && GoodRun(r) && Candidate(After(r), SecondReceive())
            && Verify(After(r), SecondReceive(), {}, true) == SUCCESS
            && Overlooked(After(r), SecondReceive()) && SecondReceive().modified > 0
  {
    SendIsGood();
    FirstReceiveIsGood();
    SecondReceiveIsAccepted();
    assert "h"[0] == 'h' && "k"[0] == 'k';
    RunGrows(Start("h", "k"), Sent(), OnceSent());
    RunGrows(Then(Start("h", "k"), Sent()), FirstReceive(), OnceReceived());
  }

  function StrangerReceive(): AccBlock {
    AccBlock(1, "q", "k", JIE, 230, 30, 0, "g", Received, VITESHAN, JIE, "s", 1)
  }

  /** The verifier accepts a receive of a send to somebody else. */
  lemma StrangerReceiveIsAccepted()
    ensures var r := Then(Start("h", "k"), Sent());
            && GoodRun(r) && LedgerOk(After(r)) && Verify(After(r), StrangerReceive(), {}, true) == SUCCESS
            && !Fitting(After(r), StrangerReceive()) && !LedgerOk(Insert(After(r), StrangerReceive()))
  {
    var r := Then(Start("h", "k"), Sent());
    SendIsGood();
    RunGrows(Start("h", "k"), Sent(), OnceSent());
    GoodRunRepeatsNothing(r);
    EveryRunConserves(r);
    StrangerIsVerified();
    SuccessIsVerified(OnceSent(), StrangerReceive(), {}, true);
    InsertKeepsOkExactly(OnceSent(), StrangerReceive());
  }

  lemma StrangerIsVerified()
    ensures Verify(OnceSent(), StrangerReceive(), {}, true) == SUCCESS && !Fitting(OnceSent(), StrangerReceive())
    ensures "h" != "k"
  {
    assert VITESHAN[0] == 'v' && JIE[0] == 'j' && CAROL[0] == 'c' && "h"[0] == 'h' && "k"[0] == 'k';
    GoodForStranger(OnceSent(), StrangerReceive(), GenesisBlock(JIE, "k"), Sent());
  }

  lemma GoodForStranger(l: Ledger, b: AccBlock, head: AccBlock, s: AccBlock)
    requires b.signer in l && l[b.signer] == [head] && head.kind.Genesis? && b.kind.Received? && b.to == b.signer
    requires b.preHash == head.hash && b.height == head.height + 1 == 1 && head.snapshotHeight <= b.snapshotHeight
    requires b.modified >= 0 && head.amount + b.modified == b.amount > 0
    requires ByHeight(l, b.from, b.sourceHeight) == Some(s) && s.hash == b.sourceHash && s.to != b.signer
    requires s.snapshotHeight <= b.snapshotHeight && s.modified + b.modified == 0
    ensures Verify(l, b, {}, true) == SUCCESS && !Fitting(l, b)
  {
  }

  lemma RunGrows(r: Run, b: AccBlock, l: Ledger)
    requires GoodRun(r) && Candidate(After(r), b) && Verified(After(r), b) && !Overlooked(After(r), b)
    requires Insert(After(r), b) == l
    ensures GoodRun(Then(r, b)) && After(Then(r, b)) == l
  {
  }
}
