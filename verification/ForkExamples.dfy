/** Runs of verified blocks on which the account side of a snapshot fork goes wrong. */
module ForkExamples {
  import opened Blocks
  import opened Accounts
  import opened Conservation
  import opened CausalCut
  import opened Worklist
  import opened AccountForks

  lemma Names()
    ensures VITESHAN != JIE && VITESHAN != CAROL && JIE != CAROL
    ensures "h" != "k" && "h" != "s" && "h" != "r" && "k" != "s" && "k" != "r" && "s" != "r"
  {
    assert VITESHAN[0] == 'v' && JIE[0] == 'j' && CAROL[0] == 'c';
    assert "h"[0] == 'h' && "k"[0] == 'k' && "s"[0] == 's' && "r"[0] == 'r';
  }

  // ---------------------------------------------------------------- an account opened above the fork

  /** carol is opened by a receive that refers to snapshot 1. */
  function LateOpening(): AccBlock {
    FirstReceive().(snapshotHeight := 1)
  }

  function LateOpened(): Ledger {
    OnceSent()[CAROL := [LateOpening()]]
  }

  lemma LateOpeningIsGood()
    ensures Candidate(OnceSent(), LateOpening()) && Verified(OnceSent(), LateOpening())
    ensures !Overlooked(OnceSent(), LateOpening()) && Insert(OnceSent(), LateOpening()) == LateOpened()
  {
    Names();
    GoodOpening(OnceSent(), LateOpening(), Sent());
    assert [] + [LateOpening()] == [LateOpening()];
  }

  function LateRun(): Run {
    Then(Then(Start("h", "k"), Sent()), LateOpening())
  }

  lemma LateRunIsGood()
    ensures GoodRun(LateRun()) && After(LateRun()) == LateOpened()
  {
    Names();
    SendIsGood();
    LateOpeningIsGood();
    RunGrows(Start("h", "k"), Sent(), OnceSent());
    RunGrows(Then(Start("h", "k"), Sent()), LateOpening(), LateOpened());
  }

  lemma CarolIsLate()
    ensures LedgerNotEmpty(LateOpened()) && CAROL in LateOpened() && LateOpened()[CAROL] == [LateOpening()]
  {
    Names();
  }

  /** A fork at snapshot 0 finds no block to roll carol back to, and dereferences nil. */
  lemma OpenedAboveTheFork()
    ensures GoodRun(LateRun()) && After(LateRun()) == LateOpened() && LedgerNotEmpty(LateOpened())
    ensures CAROL in LateOpened() && RollbackPoint(LateOpened(), CAROL, 0) == Some(None)
    ensures !AllOpened(LateOpened(), 0)
  {
    LateRunIsGood();
    CarolIsLate();
    NoPoint(LateOpened(), CAROL, LateOpening(), 0);
  }

  lemma NoPoint(l: Ledger, a: Addr, b: AccBlock, s: int)
    requires LedgerNotEmpty(l) && a in l && l[a] == [b] && b.snapshotHeight > s
    ensures RollbackPoint(l, a, s) == Some(None) && !AllOpened(l, s)
  {
  }

  // ---------------------------------------------------------------- a send above the fork

  function Paid(): AccBlock {
    AccBlock(1, "s", "h", VITESHAN, 170, -30, 1, "g", Send, VITESHAN, JIE, "", -1)
  }

  function Got(): AccBlock {
    AccBlock(1, "r", "k", JIE, 230, 30, 1, "g", Received, VITESHAN, JIE, "s", 1)
  }

  function AfterPaid(): Ledger {
    map[VITESHAN := [GenesisBlock(VITESHAN, "h"), Paid()], JIE := [GenesisBlock(JIE, "k")]]
  }

  function AfterGot(): Ledger {
    map[VITESHAN := [GenesisBlock(VITESHAN, "h"), Paid()], JIE := [GenesisBlock(JIE, "k"), Got()]]
  }

  lemma PaidIsGood()
    ensures var l := GenesisLedger("h", "k");
            Candidate(l, Paid()) && Verified(l, Paid()) && !Overlooked(l, Paid()) && Insert(l, Paid()) == AfterPaid()
  {
    Names();
    GoodOnTop(GenesisLedger("h", "k"), Paid(), GenesisBlock(VITESHAN, "h"));
    SecondOfTwo(VITESHAN, JIE, GenesisBlock(VITESHAN, "h"), [GenesisBlock(JIE, "k")], Paid());
  }

  lemma GotIsGood()
    ensures Candidate(AfterPaid(), Got()) && Verified(AfterPaid(), Got())
    ensures !Overlooked(AfterPaid(), Got()) && Insert(AfterPaid(), Got()) == AfterGot()
  {
    Names();
    GoodReceive(AfterPaid(), Got(), GenesisBlock(JIE, "k"), Paid());
    SecondOfTwo(JIE, VITESHAN, GenesisBlock(JIE, "k"), [GenesisBlock(VITESHAN, "h"), Paid()], Got());
  }

  lemma PaidRun()
    ensures var r := Then(Then(Start("h", "k"), Paid()), Got()); GoodRun(r) && After(r) == AfterGot()
    ensures LedgerOk(AfterGot())
  {
    Names();
    PaidIsGood();
    GotIsGood();
    RunGrows(Start("h", "k"), Paid(), AfterPaid());
    RunGrows(Then(Start("h", "k"), Paid()), Got(), AfterGot());
    GoodRunRepeatsNothing(Then(Then(Start("h", "k"), Paid()), Got()));
    EveryRunConserves(Then(Then(Start("h", "k"), Paid()), Got()));
  }

  function Tasks(): map<Addr, Task> {
    map[VITESHAN := Task(0, "h"), JIE := Task(0, "k")]
  }

  function PaidRounds(): Rounds {
    [Tasks(), map[JIE := Task(1, "r")], map[]]
  }

  lemma TasksOfPaid()
    ensures AllOpened(AfterGot(), 0) && CutTasks(AfterGot(), 0) == Tasks()
  {
    Names();
    var l := AfterGot();
    assert CutPoint(l[VITESHAN], 2, 0) == CutPoint(l[VITESHAN], 1, 0) == Some(0);
    assert CutPoint(l[JIE], 2, 0) == CutPoint(l[JIE], 1, 0) == Some(0);
    assert CutTasks(l, 0).Keys == {VITESHAN, JIE} == Tasks().Keys;
  }

  lemma PaidRound(i: nat)
    requires i < 2
    ensures NextRound(AfterGot(), PaidRounds()[i], PaidRounds()[i + 1])
  {
    Names();
    var l, tasks, next := AfterGot(), PaidRounds()[i], PaidRounds()[i + 1];
    assert BySource(l[JIE], 2, "s") == Some(1);
    assert ReceiverOf(l, Paid()) == Some(1);
    forall v | OfRound(l, tasks, v)
      ensures i == 0 && v == Paid() && Drags(l, v, next)
    {
      var a, j :| a in tasks && Worklist.Names(l, a, tasks[a]) && j > tasks[a].height && IsSend(l, a, j) && l[a][j] == v;
      assert j == 1;
    }
    if i == 0 {
      assert IsSend(l, VITESHAN, 1) && Worklist.Names(l, VITESHAN, tasks[VITESHAN]);
      assert OfRound(l, tasks, Paid()) && DraggedBy(l, Paid(), JIE, next[JIE]) && Caused(l, tasks, JIE, next[JIE]);
    }
  }

  lemma PaidFinishes()
    ensures LedgerNotEmpty(AfterGot()) && AllOpened(AfterGot(), 0) && SendAbove(AfterGot(), 0, VITESHAN, 1)
    ensures Finished(AfterGot(), CutTasks(AfterGot(), 0), PaidRounds()) && JIE in PaidRounds()[1]
  {
    Names();
    TasksOfPaid();
    PaidRound(0);
    PaidRound(1);
  }

  lemma ReturnedAbove(l: Ledger, rounds: Rounds, a: Addr, j: int, b: Addr)
    requires LedgerOk(l) && AllOpened(l, 0) && SendAbove(l, 0, a, j)
    requires Finished(l, CutTasks(l, 0), rounds) && |rounds| > 1 && b in rounds[1]
    ensures b in CutTasks(l, 0) && b in LastOf(rounds) && CutTasks(l, 0)[b].height < LastOf(rounds)[b]
    ensures !ClosedCover(l, CutTasks(l, 0), LastOf(rounds))
  {
    MetAgainEndsAbove(l, 0, rounds, 1, b);
    ForkRollsBackToCutExactly(l, 0, rounds);
  }

  /** A send above the fork and its receive: the fork's loop ends with the receiver above its cut
      point, so that what is returned is no consistent rollback. */
  lemma SendAboveTheFork()
    ensures GoodRun(Then(Then(Start("h", "k"), Paid()), Got())) && After(Then(Then(Start("h", "k"), Paid()), Got())) == AfterGot()
    ensures LedgerOk(AfterGot()) && AllOpened(AfterGot(), 0)
    ensures Finished(AfterGot(), CutTasks(AfterGot(), 0), PaidRounds())
    ensures JIE in CutTasks(AfterGot(), 0) && JIE in LastOf(PaidRounds())
    ensures CutTasks(AfterGot(), 0)[JIE].height < LastOf(PaidRounds())[JIE]
    ensures !ClosedCover(AfterGot(), CutTasks(AfterGot(), 0), LastOf(PaidRounds()))
  {
    PaidRun();
    PaidFinishes();
    ReturnedAbove(AfterGot(), PaidRounds(), VITESHAN, 1, JIE);
  }

  // ---------------------------------------------------------------- heads that are no longer stored

  /** viteshan's send was rolled back, and is still its head. */
  lemma HeadNoLongerStored()
    ensures var l, heads := GenesisLedger("h", "k"), map[VITESHAN := Paid(), JIE := GenesisBlock(JIE, "k")];
            && LedgerOk(l) && HeadsOk(l, heads) && AllOpened(l, 1) && !PointsFound(l, heads, 1)
  {
    Names();
    GenesisIsOk("h", "k");
    StaleStopsCollecting(VITESHAN, JIE, GenesisBlock(VITESHAN, "h"), GenesisBlock(JIE, "k"), Paid());
  }

  lemma StaleStopsCollecting(a: Addr, b: Addr, x: AccBlock, y: AccBlock, gone: AccBlock)
    requires a != b && x.height == y.height == 0 && gone.height == 1
    requires x.snapshotHeight <= gone.snapshotHeight == 1 && y.snapshotHeight <= 1
    ensures var l: Ledger, heads: Heads := map[a := [x], b := [y]], map[a := gone, b := y];
            LedgerNotEmpty(l) && HeadsOk(l, heads) && AllOpened(l, 1) && !PointsFound(l, heads, 1)
  {
    var l: Ledger, heads: Heads := map[a := [x], b := [y]], map[a := gone, b := y];
    assert HeadOf(l, heads, a) && HeadOf(l, heads, b);
    assert StaleHead(l, heads, a);
  }

  function PaidTask(): map<Addr, Task> {
    map[VITESHAN := Task(0, "h")]
  }

  lemma PaidIsDragged()
    ensures var l := AfterGot();
            && VITESHAN != JIE && l[VITESHAN] == [GenesisBlock(VITESHAN, "h"), Paid()] && l[JIE] == [GenesisBlock(JIE, "k"), Got()]
            && ReceiverOf(l, Paid()) == Some(1) && Part(l, PaidTask()) == PaidTask() && OfRound(l, PaidTask(), Paid())
  {
    Names();
    var l, start := AfterGot(), PaidTask();
    assert BySource(l[JIE], 2, "s") == Some(1);
    assert IsSend(l, VITESHAN, 1) && Worklist.Names(l, VITESHAN, start[VITESHAN]);
  }

  /** jie has received, and had a block above removed: the rollback set of viteshan's task, which
      exists, is not found. */
  lemma ReceiverNoLongerFound(gone: AccBlock)
    requires gone.height == 2 && gone.snapshotHeight >= 1
    ensures var heads: Heads := map[VITESHAN := Paid(), JIE := gone];
            HeadsOk(AfterGot(), heads) && Crashed(AfterGot(), heads, PaidTask(), [PaidTask()])
    ensures ClosedCover(AfterGot(), Part(AfterGot(), PaidTask()), map[VITESHAN := 0, JIE := 1])
  {
    PaidIsDragged();
    StaleReceiver(AfterGot(), PaidTask(), VITESHAN, JIE, GenesisBlock(VITESHAN, "h"), Paid(), GenesisBlock(JIE, "k"), Got(), gone);
  }

  lemma StaleReceiver(l: Ledger, start: map<Addr, Task>, a: Addr, b: Addr, x: AccBlock, v: AccBlock, y: AccBlock, r: AccBlock,
                      gone: AccBlock)
    requires a != b && l == map[a := [x, v], b := [y, r]] && start.Keys == {a} && start[a].height == 0 && Part(l, start) == start
    requires !x.kind.Send? && v.kind.Send? && v.to == b && ReceiverOf(l, v) == Some(1) && OfRound(l, start, v)
    requires v.height == 1 && !y.kind.Send? && !r.kind.Send? && gone.height == 2 && r.snapshotHeight <= gone.snapshotHeight
    ensures HeadsOk(l, map[a := v, b := gone]) && Crashed(l, map[a := v, b := gone], start, [start])
    ensures ClosedCover(l, start, map[a := 0, b := 1])
  {
    var heads: Heads, x: Heights := map[a := v, b := gone], map[a := 0, b := 1];
    assert HeadOf(l, heads, a) && HeadOf(l, heads, b);
    assert !Findable(l, heads, v) && [start][0] == start;
    forall c, j | c in x && IsSend(l, c, j) && j > x[c]
      ensures Pulled(l, x, l[c][j])
    {
      assert c == a && j == 1;
    }
  }
}
