/** What becomes of a rollback set: the order of causes it is explored in, the receives it leaves
    without a send, and a run that returns too little. */
module RollbackSets {
  import opened Blocks
  import opened Accounts
  import opened Conservation
  import opened Worklist

  // ---------------------------------------------------------------- every ledger has a causal order

  /** Counting inserts: a block ranks by when it was inserted. */
  ghost function RankOf(r: Run): map<Pos, nat> {
    match r
    case Start(_, _) => map[(VITESHAN, 0) := 0, (JIE, 0) := 1]
    case Then(run, b) => RankOf(run)[(b.signer, NextHeight(After(run), b.signer)) := Inserts(run)]
  }

  ghost function NextHeight(l: Ledger, a: Addr): nat {
    if a in l then |l[a]| else 0
  }

  ghost function Inserts(r: Run): nat {
    match r
    case Start(_, _) => 2
    case Then(run, _) => Inserts(run) + 1
  }

  /** On every run the order of inserts is a causal order, so the loop that collects a rollback set
      ends after at most as many rounds as there are blocks. */
  lemma {:induction false} EveryRunIsCausal(r: Run)
    requires VerifiedRun(r)
    ensures Causal(After(r), RankOf(r), Inserts(r))
  {
    match r
    case Start(h, k) =>
      assert VITESHAN[0] != JIE[0];
    case Then(run, b) =>
      EveryRunIsCausal(run);
      EveryRunConserves(run);
      NewBlockRanksLast(After(run), b, RankOf(run), Inserts(run));
  }

  lemma NewBlockRanksLast(l: Ledger, b: AccBlock, rank: map<Pos, nat>, n: nat)
    requires LedgerOk(l) && Candidate(l, b) && Verified(l, b) && Causal(l, rank, n)
    ensures Causal(Insert(l, b), rank[(b.signer, NextHeight(l, b.signer)) := n], n + 1)
  {
    var l', here := Insert(l, b), (b.signer, NextHeight(l, b.signer));
    var rank' := rank[here := n];
    forall p | InLedger(l', p)
      ensures p in rank' && rank'[p] < n + 1
    {
      OldOrNew(l, b, p);
    }
    forall a, i: nat, j: nat | a in l' && i < j < |l'[a]|
      ensures rank'[(a, i)] < rank'[(a, j)]
    {
      assert InLedger(l', (a, i)) && InLedger(l', (a, j));
      OldOrNew(l, b, (a, i));
      OldOrNew(l, b, (a, j));
    }
    forall p, q | InLedger(l', p) && InLedger(l', q) && BlockAt(l', p).kind.Send? && BlockAt(l', q).kind.Received?
                  && BlockAt(l', q).sourceHash == BlockAt(l', p).hash
      ensures rank'[p] < rank'[q]
    {
      OldOrNew(l, b, p);
      OldOrNew(l, b, q);
      SourceIsOld(l, b, p, q);
    }
  }

  lemma OldOrNew(l: Ledger, b: AccBlock, p: Pos)
    requires InLedger(Insert(l, b), p)
    ensures p == (b.signer, NextHeight(l, b.signer)) || (InLedger(l, p) && BlockAt(Insert(l, b), p) == BlockAt(l, p))
  {
  }

  lemma SourceIsOld(l: Ledger, b: AccBlock, p: Pos, q: Pos)
    requires LedgerOk(l) && Candidate(l, b) && Verified(l, b)
    requires var l' := Insert(l, b);
             && InLedger(l', p) && InLedger(l', q) && BlockAt(l', p).kind.Send? && BlockAt(l', q).kind.Received?
             && BlockAt(l', q).sourceHash == BlockAt(l', p).hash
    ensures InLedger(l, p) && p != (b.signer, NextHeight(l, b.signer))
  {
    OldOrNew(l, b, p);
    OldOrNew(l, b, q);
    if InLedger(l, q) { assert BlockOk(l, q.0, q.1); }
  }

  /** Cutting accounts short keeps the order. */
  lemma PrefixesAreCausal(l: Ledger, cut: Ledger, rank: map<Pos, nat>, n: nat)
    requires Causal(l, rank, n) && forall a | a in cut :: a in l && cut[a] <= l[a]
    ensures Causal(cut, rank, n)
  {
    forall p | InLedger(cut, p)
      ensures InLedger(l, p) && BlockAt(l, p) == BlockAt(cut, p)
    {
    }
  }

  // ---------------------------------------------------------------- receives without a send

  /** A rollback to height h keeps the block at h. */
  predicate Kept(x: Heights, a: Addr, i: int) {
    a in x ==> i <= x[a]
  }

  /** A receive that the rollback keeps although it removes the send. */
  predicate Orphan(l: Ledger, x: Heights, b: Addr, r: nat) {
    && b in l && r < |l[b]| && l[b][r].kind.Received? && Kept(x, b, r)
    && !Kept(x, l[b][r].from, l[b][r].sourceHeight)
  }

  lemma SendOfReceive(l: Ledger, b: Addr, r: nat)
    requires LedgerOk(l) && ReceivedOnce(l) && b in l && 0 < r < |l[b]| && l[b][r].kind.Received?
    ensures var v := l[b][r];
            && IsSend(l, v.from, v.sourceHeight) && l[v.from][v.sourceHeight].hash == v.sourceHash
            && l[v.from][v.sourceHeight].to == b && ReceiverOf(l, l[v.from][v.sourceHeight]) == Some(r)
  {
    assert BlockOk(l, b, r);
    BySourceFinds(l[b], |l[b]|, l[b][r].sourceHash);
  }

  /** A closed set of heights leaves no orphan but at the very height an account is rolled back
      to. */
  lemma OrphansSitAtTheCut(l: Ledger, x: Heights, b: Addr, r: nat)
    requires LedgerOk(l) && ReceivedOnce(l) && Closed(l, x) && Orphan(l, x, b, r)
    ensures b in x && r == x[b]
  {
    assert BlockOk(l, b, r);
    var v := l[l[b][r].from][l[b][r].sourceHeight];
    assert IsSend(l, l[b][r].from, l[b][r].sourceHeight) && Pulled(l, x, v);
    BySourceFinds(l[b], |l[b]|, v.hash);
  }

  /** An account dragged lower than it was asked to go keeps exactly such an orphan at its height:
      the least closure removes the sends but rolls their receivers back to, not below, the
      receive. */
  lemma {:induction false} DraggedAccountsKeepOrphans(l: Ledger, start: map<Addr, Task>, rounds: Rounds, b: Addr)
    requires LedgerOk(l) && ReceivedOnce(l) && Finished(l, start, rounds)
    requires var low := LowestOf(l, rounds);
             b in low && (b in Part(l, start) ==> low[b] < start[b].height)
    ensures LowestOf(l, rounds)[b] > 0 && Orphan(l, LowestOf(l, rounds), b, LowestOf(l, rounds)[b])
  {
    assert rounds[..|rounds|] == rounds;
    var i := ReachedIn(l, start, rounds, b, |rounds|);
    assert NextRound(l, rounds[i - 1], rounds[i]) && Caused(l, rounds[i - 1], b, rounds[i][b]);
    var a, j := DraggedFrom(l, rounds[i - 1], b, rounds[i][b]);
    LowestIsReached(l, start, rounds, a, i - 1, |rounds|);
  }

  /** The send, removed by a task, whose receive the account is dragged back to. */
  lemma DraggedFrom(l: Ledger, tasks: map<Addr, Task>, b: Addr, t: Task) returns (a: Addr, j: nat)
    requires LedgerOk(l) && ReceivedOnce(l) && Caused(l, tasks, b, t)
    ensures a in Part(l, tasks) && j > tasks[a].height
    ensures b in l && 0 < t.height < |l[b]| && l[b][t.height].kind.Received?
    ensures l[b][t.height].from == a && l[b][t.height].sourceHeight == j
  {
    var v :| OfRound(l, tasks, v) && DraggedBy(l, v, b, t);
    a, j :| a in tasks && Worklist.Names(l, a, tasks[a]) && j > tasks[a].height && IsSend(l, a, j) && l[a][j] == v;
    BySourceFinds(l[b], |l[b]|, v.hash);
    SendOfReceive(l, b, t.height);
  }

  /** No task of a round lies below the lowest height of its account. */
  lemma {:induction false} LowestIsReached(l: Ledger, start: map<Addr, Task>, rounds: Rounds, a: Addr, i: nat, n: nat)
    requires Trace(l, start, rounds) && i < n <= |rounds| && a in Part(l, rounds[i])
    ensures a in LowestOf(l, rounds[..n]) && LowestOf(l, rounds[..n])[a] <= rounds[i][a].height
    decreases n
  {
    assert rounds[..n][..n - 1] == rounds[..n - 1];
    if i < n - 1 { LowestIsReached(l, start, rounds, a, i, n - 1); }
  }

  /** The round in which an account was met at its lowest. */
  lemma {:induction false} ReachedIn(l: Ledger, start: map<Addr, Task>, rounds: Rounds, b: Addr, n: nat) returns (i: nat)
    requires Trace(l, start, rounds) && n <= |rounds| && b in LowestOf(l, rounds[..n])
    requires b in Part(l, start) ==> LowestOf(l, rounds[..n])[b] < start[b].height
    ensures 0 < i < n && b in Part(l, rounds[i]) && rounds[i][b].height == LowestOf(l, rounds[..n])[b]
    decreases n
  {
    var before := LowestOf(l, rounds[..n - 1]);
    assert rounds[..n][..n - 1] == rounds[..n - 1];
    if b in before && LowestOf(l, rounds[..n])[b] == before[b] {
      i := ReachedIn(l, start, rounds, b, n - 1);
    } else {
      i := n - 1;
    }
  }

  // ---------------------------------------------------------------- money that comes back

  function Out(): AccBlock {
    AccBlock(1, "s", "h", VITESHAN, 170, -30, 0, "g", Send, VITESHAN, JIE, "", -1)
  }

  function In(): AccBlock {
    AccBlock(1, "r", "k", JIE, 230, 30, 0, "g", Received, VITESHAN, JIE, "s", 1)
  }

  function Back(): AccBlock {
    AccBlock(2, "t", "r", JIE, 200, -30, 0, "g", Send, JIE, VITESHAN, "", -1)
  }

  function Again(): AccBlock {
    AccBlock(2, "q", "s", VITESHAN, 200, 30, 0, "g", Received, JIE, VITESHAN, "t", 2)
  }

  function PingPong(): Run {
    Then(Then(Then(Then(Start("h", "k"), Out()), In()), Back()), Again())
  }

  function Ponged(): Ledger {
    map[VITESHAN := [GenesisBlock(VITESHAN, "h"), Out(), Again()], JIE := [GenesisBlock(JIE, "k"), In(), Back()]]
  }

  /** The ledger after the first n of the four inserts. */
  function PongedUpTo(n: nat): Ledger {
    var v, j := Ponged()[VITESHAN], Ponged()[JIE];
    map[VITESHAN := if n == 0 then v[..1] else if n < 4 then v[..2] else v,
        JIE := if n < 2 then j[..1] else if n == 2 then j[..2] else j]
  }

  function PongRounds(): Rounds {
    [map[VITESHAN := Task(0, "h")], map[JIE := Task(1, "r")], map[VITESHAN := Task(2, "q")], map[]]
  }

  lemma Different()
    ensures VITESHAN != JIE && "h" != "k" && "h" != "s" && "h" != "r" && "h" != "t" && "h" != "q"
    ensures "k" != "s" && "k" != "r" && "k" != "t" && "k" != "q" && "s" != "r" && "s" != "t" && "s" != "q"
    ensures "r" != "t" && "r" != "q" && "t" != "q"
  {
    assert VITESHAN[0] == 'v' && JIE[0] == 'j';
    assert "h"[0] == 'h' && "k"[0] == 'k' && "s"[0] == 's' && "r"[0] == 'r' && "q"[0] == 'q' && "t"[0] == 't';
  }

  function PongBlock(n: nat): AccBlock {
    if n == 0 then Out() else if n == 1 then In() else if n == 2 then Back() else Again()
  }

  lemma PongStep(n: nat)
    requires n < 4
    ensures Insert(PongedUpTo(n), PongBlock(n)) == PongedUpTo(n + 1)
    ensures Candidate(PongedUpTo(n), PongBlock(n)) && Verified(PongedUpTo(n), PongBlock(n))
    ensures !Overlooked(PongedUpTo(n), PongBlock(n))
  {
    Different();
    var l, b := PongedUpTo(n), PongBlock(n);
    var v, j := Ponged()[VITESHAN], Ponged()[JIE];
    assert l[b.signer] + [b] == PongedUpTo(n + 1)[b.signer];
    assert Insert(l, b) == PongedUpTo(n + 1);
    assert ByHeight(l, VITESHAN, 0) == Some(v[0]) && ByHeight(l, JIE, 0) == Some(j[0]);
    if n >= 1 { assert ByHeight(l, VITESHAN, 1) == Some(Out()); }
    if n >= 2 { assert ByHeight(l, JIE, 1) == Some(In()); }
    if n >= 3 { assert ByHeight(l, JIE, 2) == Some(Back()); }
    assert Head(l, b.signer).value == l[b.signer][|l[b.signer]| - 1];
    BySourceFinds(l[b.signer], |l[b.signer]|, b.sourceHash);
  }

  function PongRun(n: nat): Run {
    if n == 0 then Start("h", "k") else Then(PongRun(n - 1), PongBlock(n - 1))
  }

  lemma {:induction false} PongRunIsGood(n: nat)
    requires n <= 4
    ensures GoodRun(PongRun(n)) && After(PongRun(n)) == PongedUpTo(n)
  {
    if n == 0 {
      PongStarts();
    } else {
      PongRunIsGood(n - 1);
      PongStep(n - 1);
      RunGrows(PongRun(n - 1), PongBlock(n - 1), PongedUpTo(n));
    }
  }

  lemma PingPongIsGood()
    ensures GoodRun(PingPong()) && After(PingPong()) == Ponged()
  {
    PongStarts();
    PongRunIsGood(4);
    assert PongRun(4) == Then(PongRun(3), Again()) && PongRun(3) == Then(PongRun(2), Back());
    assert PongRun(2) == Then(PongRun(1), In()) && PongRun(1) == Then(PongRun(0), Out());
  }

  lemma PongStarts()
    ensures GoodRun(Start("h", "k")) && GenesisLedger("h", "k") == PongedUpTo(0) && PongedUpTo(4) == Ponged()
  {
    Different();
    assert PongedUpTo(0)[VITESHAN] == [GenesisBlock(VITESHAN, "h")] && PongedUpTo(0)[JIE] == [GenesisBlock(JIE, "k")];
    assert GenesisLedger("h", "k") == PongedUpTo(0);
  }

  lemma PongFinishes()
    ensures Finished(Ponged(), PongRounds()[0], PongRounds()) && Part(Ponged(), PongRounds()[0]) == PongRounds()[0]
  {
    Different();
    PongRound(0);
    PongRound(1);
    PongRound(2);
  }

  /** An account sends money and gets it back. Rolling it back below the send returns it at the
      height where the money came back, above the send: what is returned is no consistent
      rollback. */
  lemma ReturnedMoneyIsRolledBackTooHigh()
    ensures GoodRun(PingPong()) && After(PingPong()) == Ponged()
    ensures Finished(Ponged(), PongRounds()[0], PongRounds())
    ensures LastOf(PongRounds()) == map[VITESHAN := 2, JIE := 1]
    ensures LowestOf(Ponged(), PongRounds()) == map[VITESHAN := 0, JIE := 1]
    ensures !ClosedCover(Ponged(), PongRounds()[0], LastOf(PongRounds()))
  {
    PingPongIsGood();
    PongFinishes();
    PongHeights();
    PongRoundIsNamed(0);
    NotClosed(Ponged(), PongRounds()[0], PongRounds(), VITESHAN, JIE);
  }

  lemma NotClosed(l: Ledger, start: map<Addr, Task>, rounds: Rounds, a: Addr, b: Addr)
    requires Finished(l, start, rounds) && a != b
    requires LastOf(rounds) == map[a := 2, b := 1] && LowestOf(l, rounds) == map[a := 0, b := 1] && Part(l, start) == start
    ensures !ClosedCover(l, start, LastOf(rounds))
  {
    LastIsClosedExactly(l, start, rounds);
    assert LastOf(rounds)[a] != LowestOf(l, rounds)[a];
  }

  lemma PongReceivers()
    ensures ReceiverOf(Ponged(), Out()) == Some(1) && ReceiverOf(Ponged(), Back()) == Some(2)
  {
    assert "s"[0] == 's' && "t"[0] == 't' && VITESHAN[0] == 'v' && JIE[0] == 'j';
    var l := Ponged();
    assert BySource(l[JIE], 2, "s") == Some(1);
    assert BySource(l[JIE], 3, "s") == BySource(l[JIE], 2, "s");
    assert BySource(l[VITESHAN], 3, "t") == Some(2);
  }

  lemma PongRound(i: nat)
    requires i < 3
    ensures NextRound(Ponged(), PongRounds()[i], PongRounds()[i + 1])
  {
    var l, tasks, next := Ponged(), PongRounds()[i], PongRounds()[i + 1];
    assert VITESHAN[0] == 'v' && JIE[0] == 'j';
    PongReceivers();
    forall v | OfRound(l, tasks, v)
      ensures Drags(l, v, next) && (i == 0 ==> v == Out()) && (i == 1 ==> v == Back()) && i < 2
    {
      var a, j :| a in tasks && Worklist.Names(l, a, tasks[a]) && j > tasks[a].height && IsSend(l, a, j) && l[a][j] == v;
      assert i == 0 ==> j == 1;
      assert i == 1 ==> j == 2;
    }
    if i == 0 {
      assert IsSend(l, VITESHAN, 1) && Worklist.Names(l, VITESHAN, tasks[VITESHAN]);
      assert OfRound(l, tasks, Out()) && DraggedBy(l, Out(), JIE, next[JIE]) && Caused(l, tasks, JIE, next[JIE]);
    } else if i == 1 {
      assert IsSend(l, JIE, 2) && Worklist.Names(l, JIE, tasks[JIE]);
      assert OfRound(l, tasks, Back()) && DraggedBy(l, Back(), VITESHAN, next[VITESHAN]);
      assert Caused(l, tasks, VITESHAN, next[VITESHAN]);
    }
  }

  lemma PongHeights()
    ensures LastOf(PongRounds()) == map[VITESHAN := 2, JIE := 1]
    ensures LowestOf(Ponged(), PongRounds()) == map[VITESHAN := 0, JIE := 1]
  {
    PongRoundIsNamed(0);
    PongRoundIsNamed(1);
    PongRoundIsNamed(2);
    PongRoundIsNamed(3);
    ThereAndBack(Ponged(), PongRounds(), VITESHAN, JIE);
  }

  lemma ThereAndBack(l: Ledger, r: Rounds, a: Addr, b: Addr)
    requires a != b && |r| == 4 && forall i | 0 <= i < 4 :: Part(l, r[i]) == r[i]
    requires HeightsOf(r[0]) == map[a := 0] && HeightsOf(r[1]) == map[b := 1]
    requires HeightsOf(r[2]) == map[a := 2] && HeightsOf(r[3]) == map[]
    ensures LastOf(r) == map[a := 2, b := 1] && LowestOf(l, r) == map[a := 0, b := 1]
  {
    var r2, r3 := [r[0], r[1]], [r[0], r[1], r[2]];
    assert r2 + [r[2]] == r3 && r3 + [r[3]] == r;
    There(l, r[0], r[1], a, b);
    AndBack(l, r2, r[2], a, b);
    RoundAdds(l, r3, r[3]);
    NothingMet(l, map[a := 2, b := 1], map[a := 0, b := 1], r[3]);
  }

  lemma AndBack(l: Ledger, rounds: Rounds, r2: map<Addr, Task>, a: Addr, b: Addr)
    requires a != b && Part(l, r2) == r2 && HeightsOf(r2) == map[a := 2]
    requires LastOf(rounds) == map[a := 0, b := 1] && LowestOf(l, rounds) == map[a := 0, b := 1]
    ensures LastOf(rounds + [r2]) == map[a := 2, b := 1] && LowestOf(l, rounds + [r2]) == map[a := 0, b := 1]
  {
    RoundAdds(l, rounds, r2);
    LaterWins(a, b);
    LoweredBack(r2, a, b);
  }

  lemma LaterWins(a: Addr, b: Addr)
    requires a != b
    ensures var first: Heights := map[a := 0, b := 1]; first + map[a := 2] == map[a := 2, b := 1]
  {
    var first: Heights := map[a := 0, b := 1];
    assert (first + map[a := 2]).Keys == {a, b};
  }

  lemma LoweredBack(r2: map<Addr, Task>, a: Addr, b: Addr)
    requires a != b && HeightsOf(r2) == map[a := 2]
    ensures Lowered(map[a := 0, b := 1], r2) == map[a := 0, b := 1]
  {
    assert r2.Keys == HeightsOf(r2).Keys && r2[a].height == HeightsOf(r2)[a];
  }

  lemma NothingMet(l: Ledger, last: Heights, low: Heights, next: map<Addr, Task>)
    requires HeightsOf(next) == map[]
    ensures last + HeightsOf(next) == last && Lowered(low, Part(l, next)) == low
  {
    assert next.Keys == HeightsOf(next).Keys;
  }

  lemma There(l: Ledger, r0: map<Addr, Task>, r1: map<Addr, Task>, a: Addr, b: Addr)
    requires a != b && Part(l, r0) == r0 && Part(l, r1) == r1
    requires HeightsOf(r0) == map[a := 0] && HeightsOf(r1) == map[b := 1]
    ensures LastOf([r0, r1]) == map[a := 0, b := 1] && LowestOf(l, [r0, r1]) == map[a := 0, b := 1]
  {
    assert [] + [r0] == [r0] && [r0] + [r1] == [r0, r1];
    RoundMerges(l, [], r0, map[], map[], map[a := 0], map[a := 0]);
    RoundMerges(l, [r0], r1, map[a := 0], map[a := 0], map[a := 0, b := 1], map[a := 0, b := 1]);
  }

  lemma RoundMerges(l: Ledger, rounds: Rounds, next: map<Addr, Task>, last: Heights, low: Heights, last': Heights, low': Heights)
    requires LastOf(rounds) == last && LowestOf(l, rounds) == low && Part(l, next) == next
    requires last' == last + HeightsOf(next)
    requires low'.Keys == low.Keys + HeightsOf(next).Keys
    requires forall c | c in low' ::
               low'[c] == if c !in HeightsOf(next) then low[c]
                          else if c !in low then HeightsOf(next)[c] else Min(low[c], HeightsOf(next)[c])
    ensures LastOf(rounds + [next]) == last' && LowestOf(l, rounds + [next]) == low'
  {
    RoundAdds(l, rounds, next);
    assert Lowered(low, next) == low';
  }

  lemma PongRoundIsNamed(i: nat)
    requires i < 4
    ensures Part(Ponged(), PongRounds()[i]) == PongRounds()[i] && VITESHAN != JIE
    ensures HeightsOf(PongRounds()[i]) == [map[VITESHAN := 0], map[JIE := 1], map[VITESHAN := 2], map[]][i]
  {
    Different();
  }

  lemma RoundAdds(l: Ledger, rounds: Rounds, next: map<Addr, Task>)
    ensures LastOf(rounds + [next]) == LastOf(rounds) + HeightsOf(next)
    ensures LowestOf(l, rounds + [next]) == Lowered(LowestOf(l, rounds), Part(l, next))
  {
    assert (rounds + [next])[..|rounds|] == rounds;
  }
}
