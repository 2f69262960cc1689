/** The account side of a snapshot fork: every account that refers to the fork point's height or
    above is to be rolled back to its cut point, with the accounts its sends drag along. */
module AccountForks {
  import opened Blocks
  import opened Accounts
  import opened Conservation
  import opened CausalCut
  import opened Worklist

  /** `FindRollbackPointByReferSnapshot` over a current head: whether the account is to be rolled
      back, and to where. */
  function RollbackPoint(l: Ledger, a: Addr, s: int): Option<Option<nat>>
    requires a in l && l[a] != []
  {
    if l[a][|l[a]| - 1].snapshotHeight < s then None else Some(CutPoint(l[a], |l[a]|, s))
  }

  /** Every account that is to be rolled back has a head that is still stored, and was opened no
      higher than the fork. */
  predicate PointsFound(l: Ledger, heads: Heads, s: int)
    requires LedgerNotEmpty(l)
  {
    forall a | a in heads && heads[a].snapshotHeight >= s :: !StaleHead(l, heads, a) && l[a][0].snapshotHeight <= s
  }

  /** No account's rollback point is missing. */
  predicate AllOpened(l: Ledger, s: int)
    requires LedgerNotEmpty(l)
  {
    forall a | a in l :: l[a][0].snapshotHeight <= s
  }

  predicate LedgerNotEmpty(l: Ledger) {
    forall a | a in l :: l[a] != []
  }

  ghost function CutTasks(l: Ledger, s: int): map<Addr, Task>
    requires LedgerNotEmpty(l)
  {
    map a | a in l && RollbackPoint(l, a, s).Some? && RollbackPoint(l, a, s).value.Some? ::
      Task(RollbackPoint(l, a, s).value.value, l[a][RollbackPoint(l, a, s).value.value].hash)
  }

  /** The tasks of the accounts not in `left`. */
  ghost predicate Collected(l: Ledger, heads: Heads, s: int, left: set<Addr>, tasks: map<Addr, Task>)
    requires LedgerNotEmpty(l)
  {
    && (forall a | a in heads && a !in left && heads[a].snapshotHeight >= s ::
          !StaleHead(l, heads, a) && l[a][0].snapshotHeight <= s)
    && (forall a :: a in tasks <==> a in CutTasks(l, s) && a !in left)
    && (forall a | a in tasks :: tasks[a] == CutTasks(l, s)[a])
  }

  lemma CollectedOneMore(l: Ledger, heads: Heads, s: int, left: set<Addr>, tasks: map<Addr, Task>, a: Addr, tasks': map<Addr, Task>)
    requires LedgerNotEmpty(l) && Collected(l, heads, s, left, tasks) && a in left && a in heads && HeadOf(l, heads, a)
    requires if heads[a].snapshotHeight < s then tasks' == tasks
             else
               && !StaleHead(l, heads, a) && l[a][0].snapshotHeight <= s
               && var p := CutPoint(l[a], |l[a]|, s);
                  p.Some? && tasks' == tasks[a := Task(p.value, l[a][p.value].hash)]
    ensures Collected(l, heads, s, left - {a}, tasks')
  {
    assert a in CutTasks(l, s) <==> heads[a].snapshotHeight >= s;
  }

  /** The account has a rollback point, if it is to be rolled back, exactly when it was opened no
      higher than the fork. */
  ghost predicate PointMeans(l: Ledger, s: int, a: Addr)
    requires LedgerNotEmpty(l)
  {
    a in l ==> (RollbackPoint(l, a, s) == Some(None) <==> l[a][0].snapshotHeight > s)
  }

  lemma PointIsMissingExactly(l: Ledger, s: int, a: Addr)
    requires LedgerOk(l)
    ensures PointMeans(l, s, a)
  {
    if a in l {
      CutPointExists(l, a, s);
      OpenedLower(l, a);
    }
  }

  /** What a pool without a head answers in its place refers to snapshot 0. */
  const NO_HEAD_SNAPSHOT := 0

  /** No fork this low meets a pool without a head. */
  predicate NoneEmpty(pools: set<Addr>, heads: Heads, s: int) {
    NO_HEAD_SNAPSHOT >= s ==> pools <= heads.Keys
  }

  /** The first loop of `ForkAccounts`, over the accounts that have a pool. It dereferences nil exactly
      when some account whose head refers at or above the fork was opened above it, or has a head that
      is no longer stored; or when the fork is at snapshot 0 and some account has no head. */
  method CollectTasks(l: Ledger, pools: set<Addr>, heads: Heads, s: int) returns (crashed: bool, tasks: map<Addr, Task>)
    requires LedgerOk(l) && HeadsOk(l, heads) && heads.Keys <= pools
    ensures crashed <==> !(PointsFound(l, heads, s) && NoneEmpty(pools, heads, s))
    ensures !crashed ==> tasks == CutTasks(l, s) && AllOpened(l, s)
  {
    forall a ensures PointMeans(l, s, a) { PointIsMissingExactly(l, s, a); }
    crashed, tasks := CollectFrom(l, pools, heads, s);
    if !crashed { FoundAreOpened(l, heads, s); }
  }

  lemma FoundAreOpened(l: Ledger, heads: Heads, s: int)
    requires LedgerOk(l) && HeadsOk(l, heads) && PointsFound(l, heads, s)
    ensures AllOpened(l, s)
  {
    forall a | a in l
      ensures l[a][0].snapshotHeight <= s
    {
      assert HeadOf(l, heads, a);
      OpenedLower(l, a);
    }
  }

  method CollectFrom(l: Ledger, pools: set<Addr>, heads: Heads, s: int) returns (crashed: bool, tasks: map<Addr, Task>)
    requires LedgerNotEmpty(l) && HeadsOk(l, heads) && heads.Keys <= pools
    requires forall a {:trigger PointMeans(l, s, a)} :: PointMeans(l, s, a)
    ensures crashed <==> !(PointsFound(l, heads, s) && NoneEmpty(pools, heads, s))
    ensures !crashed ==> tasks == CutTasks(l, s)
  {
    crashed, tasks := false, map[];
    var left := pools;
    while left != {} && !crashed
      invariant left <= pools
      invariant crashed ==> !(PointsFound(l, heads, s) && NoneEmpty(pools, heads, s))
      invariant !crashed ==> Collected(l, heads, s, left, tasks) && NoneEmpty(pools - left, heads, s)
      decreases |left|, !crashed
    {
      var a :| a in left;
      if a in heads {
        assert PointMeans(l, s, a) && HeadOf(l, heads, a);
        crashed, tasks := CollectOne(l, heads, s, left, tasks, a);
      } else {
        crashed := NO_HEAD_SNAPSHOT >= s;
        PassedOver(l, heads, s, left, tasks, a);
      }
      if !crashed {
        OneMorePool(pools, left, heads, s, a);
        left := left - {a};
      }
    }
  }

  lemma PassedOver(l: Ledger, heads: Heads, s: int, left: set<Addr>, tasks: map<Addr, Task>, a: Addr)
    requires LedgerNotEmpty(l) && l.Keys <= heads.Keys && a !in heads && Collected(l, heads, s, left, tasks)
    ensures Collected(l, heads, s, left - {a}, tasks)
  {
  }

  lemma OneMorePool(pools: set<Addr>, left: set<Addr>, heads: Heads, s: int, a: Addr)
    requires NoneEmpty(pools - left, heads, s) && a in left && (a in heads || NO_HEAD_SNAPSHOT < s)
    ensures NoneEmpty(pools - (left - {a}), heads, s) && |left - {a}| < |left|
  {
  }

  /** `FindRollbackPointByReferSnapshot` of an account with a head, and what is made of it. */
  method CollectOne(l: Ledger, heads: Heads, s: int, ghost left: set<Addr>, sofar: map<Addr, Task>, a: Addr)
    returns (crashed: bool, tasks: map<Addr, Task>)
    requires LedgerNotEmpty(l) && a in heads && a in left && HeadOf(l, heads, a) && PointMeans(l, s, a)
    requires Collected(l, heads, s, left, sofar)
    ensures crashed ==> !PointsFound(l, heads, s)
    ensures !crashed ==> Collected(l, heads, s, left - {a}, tasks)
  {
    crashed, tasks := false, sofar;
    if heads[a].snapshotHeight >= s {
      if StaleHead(l, heads, a) {
        return true, sofar;
      }
      var point := CutPoint(l[a], |l[a]|, s);
      if point.None? {
        return true, sofar;
      }
      tasks := sofar[a := Task(point.value, l[a][point.value].hash)];
    }
    CollectedOneMore(l, heads, s, left, sofar, a, tasks);
  }

  lemma OpenedLower(l: Ledger, a: Addr)
    requires LedgerOk(l) && a in l
    ensures l[a] != [] && l[a][0].snapshotHeight <= l[a][|l[a]| - 1].snapshotHeight
  {
    SnapshotsNeverFall(l, a, 0, |l[a]| - 1);
  }

  // ---------------------------------------------------------------- the tasks are the causal cut

  ghost predicate SendAbove(l: Ledger, s: int, a: Addr, j: int) {
    IsSend(l, a, j) && l[a][j].snapshotHeight > s
  }

  /** Every send above the fork was received, and not by opening an account. */
  ghost predicate AllReceived(l: Ledger, s: int) {
    forall a, j | SendAbove(l, s, a, j) :: ReceiverOf(l, l[a][j]).Some?
  }

  /** What lies above an account's task refers above the fork, and what refers there is in an
      account with a task below it. */
  lemma TasksSplit(l: Ledger, s: int, a: Addr, j: nat)
    requires LedgerOk(l) && AllOpened(l, s) && a in l && j < |l[a]|
    ensures l[a][j].snapshotHeight > s <==> a in CutTasks(l, s) && j > CutTasks(l, s)[a].height
  {
    CutPointExists(l, a, s);
    CutPointSplits(l, a, |l[a]|, s, j);
    SnapshotsNeverFall(l, a, j, |l[a]| - 1);
  }

  /** A fork's tasks are of the accounts whose tops refer at the fork's height or above, each to its
      highest block that refers no higher. */
  lemma CutTasksExactly(l: Ledger, s: int, a: Addr)
    requires LedgerOk(l) && AllOpened(l, s)
    ensures a in CutTasks(l, s) <==> a in l && l[a][|l[a]| - 1].snapshotHeight >= s
    ensures a in CutTasks(l, s) ==>
              var t := CutTasks(l, s)[a];
              && 0 <= t.height < |l[a]| && l[a][t.height].hash == t.hash && l[a][t.height].snapshotHeight <= s
              && forall j | t.height < j < |l[a]| :: l[a][j].snapshotHeight > s
  {
    if a in l {
      CutPointExists(l, a, s);
      var k := CutPoint(l[a], |l[a]|, s).value;
      CutPointSplits(l, a, |l[a]|, s, k);
      forall j | k < j < |l[a]| ensures l[a][j].snapshotHeight > s { CutPointSplits(l, a, |l[a]|, s, j); }
    }
  }

  lemma TasksAreNamed(l: Ledger, s: int)
    requires LedgerOk(l) && AllOpened(l, s)
    ensures Part(l, CutTasks(l, s)) == CutTasks(l, s)
  {
    NamedTasksStay(l, CutTasks(l, s));
  }

  lemma NamedTasksStay(l: Ledger, tasks: map<Addr, Task>)
    requires forall a | a in tasks :: Worklist.Names(l, a, tasks[a])
    ensures Part(l, tasks) == tasks
  {
  }

  /** A receive refers no lower than its send. */
  lemma ReceiverIsAbove(l: Ledger, s: int, a: Addr, j: int)
    requires LedgerOk(l) && SendAbove(l, s, a, j) && ReceiverOf(l, l[a][j]).Some?
    ensures var v := l[a][j];
            v.to in l && ReceiverOf(l, v).value < |l[v.to]| && l[v.to][ReceiverOf(l, v).value].snapshotHeight > s
  {
    var v := l[a][j];
    var r := ReceiverOf(l, v).value;
    BySourceFinds(l[v.to], |l[v.to]|, v.hash);
    assert BlockOk(l, v.to, r);
  }

  /** The tasks are closed under send to receive as they are, exactly when every send above the fork
      was received. */
  lemma CutIsClosedExactly(l: Ledger, s: int)
    requires LedgerOk(l) && AllOpened(l, s)
    ensures Closed(l, HeightsOf(CutTasks(l, s))) <==> AllReceived(l, s)
  {
    var tasks, x := CutTasks(l, s), HeightsOf(CutTasks(l, s));
    if Closed(l, x) {
      forall a, j | SendAbove(l, s, a, j)
        ensures ReceiverOf(l, l[a][j]).Some?
      {
        TasksSplit(l, s, a, j);
        assert Pulled(l, x, l[a][j]);
      }
    }
    if AllReceived(l, s) {
      forall a, j | a in x && IsSend(l, a, j) && j > x[a]
        ensures Pulled(l, x, l[a][j])
      {
        TasksSplit(l, s, a, j);
        assert SendAbove(l, s, a, j);
        ReceiverIsAbove(l, s, a, j);
        TasksSplit(l, s, l[a][j].to, ReceiverOf(l, l[a][j]).value);
      }
    }
  }

  /** So the rollback set of a fork can be computed, rather than dereferencing nil, exactly when
      every send above the fork was received; and the set it should come to is the tasks
      themselves. */
  lemma ForkSetExists(l: Ledger, s: int)
    requires LedgerOk(l) && AllOpened(l, s)
    ensures (exists x :: ClosedCover(l, Part(l, CutTasks(l, s)), x)) <==> AllReceived(l, s)
  {
    var tasks := CutTasks(l, s);
    TasksAreNamed(l, s);
    CutIsClosedExactly(l, s);
    if x :| ClosedCover(l, Part(l, tasks), x) {
      forall a, j | SendAbove(l, s, a, j)
        ensures ReceiverOf(l, l[a][j]).Some?
      {
        TasksSplit(l, s, a, j);
        assert a in Part(l, tasks);
        assert Pulled(l, x, l[a][j]);
      }
    }
    if AllReceived(l, s) {
      assert ClosedCover(l, Part(l, tasks), HeightsOf(tasks));
    }
  }

  /** Where the tasks could be collected, the receives of the sends above the fork are found, as far as
      they are there: their accounts refer above the fork too, so their heads are current. */
  lemma CollectedAreFound(l: Ledger, heads: Heads, s: int, a: Addr, j: int)
    requires LedgerOk(l) && HeadsOk(l, heads) && PointsFound(l, heads, s) && SendAbove(l, s, a, j)
    ensures Findable(l, heads, l[a][j]) <==> ReceiverOf(l, l[a][j]).Some?
  {
    var v := l[a][j];
    if ReceiverOf(l, v).Some? {
      ReceiverIsAbove(l, s, a, j);
      assert HeadOf(l, heads, v.to);
      SnapshotsNeverFall(l, v.to, ReceiverOf(l, v).value, |l[v.to]| - 1);
    }
  }

  /** So a fork that collects its tasks goes on to compute its rollback set, rather than
      dereferencing nil, exactly when every send above the fork was received, whatever heads the
      other accounts have. */
  lemma ForkFollowsExactly(l: Ledger, heads: Heads, s: int)
    requires LedgerOk(l) && HeadsOk(l, heads) && PointsFound(l, heads, s)
    ensures (exists x :: ClosedCover(l, Part(l, CutTasks(l, s)), x) && Followable(l, heads, x)) <==> AllReceived(l, s)
  {
    FoundAreOpened(l, heads, s);
    ForkSetExists(l, s);
    TasksAreNamed(l, s);
    CutIsClosedExactly(l, s);
    if AllReceived(l, s) {
      var x := HeightsOf(CutTasks(l, s));
      forall a, j | a in x && IsSend(l, a, j) && j > x[a]
        ensures Findable(l, heads, l[a][j])
      {
        TasksSplit(l, s, a, j);
        assert SendAbove(l, s, a, j);
        CollectedAreFound(l, heads, s, a, j);
      }
      assert ClosedCover(l, Part(l, CutTasks(l, s)), x) && Followable(l, heads, x);
    }
  }

  lemma LowestIsTheCut(l: Ledger, s: int, rounds: Rounds)
    requires LedgerOk(l) && AllOpened(l, s) && Finished(l, CutTasks(l, s), rounds)
    ensures LowestOf(l, rounds) == HeightsOf(CutTasks(l, s))
  {
    var tasks := CutTasks(l, s);
    TasksAreNamed(l, s);
    LowestIsLeastClosure(l, tasks, rounds);
    CutIsCover(l, s, LowestOf(l, rounds));
    Squeezed(LowestOf(l, rounds), tasks);
  }

  /** If there is a closed cover at all, the cut itself is one. */
  lemma CutIsCover(l: Ledger, s: int, x: Heights)
    requires LedgerOk(l) && AllOpened(l, s) && ClosedCover(l, Part(l, CutTasks(l, s)), x)
    ensures ClosedCover(l, Part(l, CutTasks(l, s)), HeightsOf(CutTasks(l, s)))
  {
    TasksAreNamed(l, s);
    ForkSetExists(l, s);
    CutIsClosedExactly(l, s);
  }

  lemma Squeezed(low: Heights, tasks: map<Addr, Task>)
    requires Covers(low, tasks) && Within(low, HeightsOf(tasks))
    ensures low == HeightsOf(tasks)
  {
    assert low.Keys == HeightsOf(tasks).Keys;
  }

  // ---------------------------------------------------------------- what is returned instead

  /** Everything met after the first round refers above the fork. */
  lemma {:induction false} LaterRoundsAreAbove(l: Ledger, s: int, rounds: Rounds, i: nat, b: Addr)
    requires LedgerOk(l) && AllOpened(l, s) && Trace(l, CutTasks(l, s), rounds) && 0 < i < |rounds| && b in rounds[i]
    ensures b in CutTasks(l, s) && rounds[i][b].height > CutTasks(l, s)[b].height
    ensures exists a, j :: SendAbove(l, s, a, j)
  {
    var tasks, t := rounds[i - 1], rounds[i][b];
    assert NextRound(l, tasks, rounds[i]) && Caused(l, tasks, b, t);
    var v :| OfRound(l, tasks, v) && DraggedBy(l, v, b, t);
    var a, j :| a in tasks && Worklist.Names(l, a, tasks[a]) && j > tasks[a].height && IsSend(l, a, j) && l[a][j] == v;
    if i > 1 { LaterRoundsAreAbove(l, s, rounds, i - 1, a); }
    TasksSplit(l, s, a, j);
    assert SendAbove(l, s, a, j);
    ReceiverIsAbove(l, s, a, j);
    TasksSplit(l, s, b, t.height);
  }

  lemma LastAdds(rounds: Rounds, n: nat, b: Addr)
    requires 0 < n <= |rounds|
    ensures b in LastOf(rounds[..n]) <==> b in LastOf(rounds[..n - 1]) || b in rounds[n - 1]
    ensures b in LastOf(rounds[..n]) ==>
              LastOf(rounds[..n])[b] == if b in rounds[n - 1] then rounds[n - 1][b].height else LastOf(rounds[..n - 1])[b]
  {
    assert rounds[..n][..n - 1] == rounds[..n - 1];
  }

  lemma FirstIsLast(rounds: Rounds)
    requires |rounds| > 0
    ensures LastOf(rounds[..1]) == HeightsOf(rounds[0])
  {
    forall b ensures b in LastOf(rounds[..1]) <==> b in rounds[0] { LastAdds(rounds, 1, b); }
    forall b | b in rounds[0] ensures LastOf(rounds[..1])[b] == rounds[0][b].height { LastAdds(rounds, 1, b); }
  }

  lemma EmptyAddsNothing(rounds: Rounds, n: nat)
    requires 1 < n <= |rounds| && rounds[n - 1] == map[]
    ensures LastOf(rounds[..n]) == LastOf(rounds[..n - 1])
  {
    var now, before := LastOf(rounds[..n]), LastOf(rounds[..n - 1]);
    forall b ensures b in now <==> b in before { LastAdds(rounds, n, b); }
    forall b | b in now ensures now[b] == before[b] { LastAdds(rounds, n, b); }
  }

  lemma {:induction false} LastIsAboveFloor(rounds: Rounds, i: nat, b: Addr, n: nat, floor: int)
    requires 0 < i < n <= |rounds| && b in rounds[i]
    requires forall k | 0 < k < n && b in rounds[k] :: rounds[k][b].height > floor
    ensures b in LastOf(rounds[..n]) && LastOf(rounds[..n])[b] > floor
    decreases n
  {
    LastAdds(rounds, n, b);
    if b !in rounds[n - 1] {
      LastIsAboveFloor(rounds, i, b, n - 1, floor);
    }
  }

  /** An account met after the first round is returned above its cut point. */
  lemma MetAgainEndsAbove(l: Ledger, s: int, rounds: Rounds, i: nat, b: Addr)
    requires LedgerOk(l) && AllOpened(l, s) && Trace(l, CutTasks(l, s), rounds) && 0 < i < |rounds| && b in rounds[i]
    ensures b in CutTasks(l, s) && b in LastOf(rounds) && LastOf(rounds)[b] > CutTasks(l, s)[b].height
  {
    LaterRoundsAreAbove(l, s, rounds, i, b);
    var floor := CutTasks(l, s)[b].height;
    forall k | 0 < k < |rounds| && b in rounds[k]
      ensures rounds[k][b].height > floor
    {
      LaterRoundsAreAbove(l, s, rounds, k, b);
    }
    LastIsAboveFloor(rounds, i, b, |rounds|, floor);
    assert rounds[..|rounds|] == rounds;
  }

  /** A fork's account side rolls every account back to its cut point exactly when no account sent
      anything above the fork. As soon as one did, and it was received, the receiver is returned
      above its cut point. */
  lemma ForkRollsBackToCutExactly(l: Ledger, s: int, rounds: Rounds)
    requires LedgerOk(l) && AllOpened(l, s) && Finished(l, CutTasks(l, s), rounds)
    ensures LastOf(rounds) == HeightsOf(CutTasks(l, s)) <==> !exists a, j :: SendAbove(l, s, a, j)
    ensures ClosedCover(l, CutTasks(l, s), LastOf(rounds)) <==> !exists a, j :: SendAbove(l, s, a, j)
  {
    var tasks := CutTasks(l, s);
    TasksAreNamed(l, s);
    LowestIsTheCut(l, s, rounds);
    LastIsClosedExactly(l, tasks, rounds);
    if a, j :| SendAbove(l, s, a, j) {
      SendIsMet(l, s, rounds, a, j);
    } else {
      NothingMet(l, s, rounds);
    }
  }

  lemma SendIsMet(l: Ledger, s: int, rounds: Rounds, a: Addr, j: int)
    requires LedgerOk(l) && AllOpened(l, s) && Finished(l, CutTasks(l, s), rounds) && SendAbove(l, s, a, j)
    ensures LastOf(rounds) != HeightsOf(CutTasks(l, s))
  {
    var b := l[a][j].to;
    SecondRoundHas(l, s, rounds, a, j);
    MetAgainEndsAbove(l, s, rounds, 1, b);
  }

  /** A send above the fork puts its receiver into the second round. */
  lemma SecondRoundHas(l: Ledger, s: int, rounds: Rounds, a: Addr, j: int)
    requires LedgerOk(l) && AllOpened(l, s) && Finished(l, CutTasks(l, s), rounds) && SendAbove(l, s, a, j)
    ensures |rounds| > 1 && l[a][j].to in rounds[1]
  {
    var tasks, v := CutTasks(l, s), l[a][j];
    TasksSplit(l, s, a, j);
    TasksAreNamed(l, s);
    assert a in Part(l, tasks) && OfRound(l, tasks, v);
    assert |rounds| > 1 && NextRound(l, rounds[0], rounds[1]);
    assert Drags(l, v, rounds[1]);
  }

  lemma NothingMet(l: Ledger, s: int, rounds: Rounds)
    requires LedgerOk(l) && AllOpened(l, s) && Trace(l, CutTasks(l, s), rounds)
    requires !exists a, j :: SendAbove(l, s, a, j)
    ensures LastOf(rounds) == HeightsOf(CutTasks(l, s))
  {
    LastStays(l, s, rounds, |rounds|);
    assert rounds[..|rounds|] == rounds;
  }

  lemma {:induction false} LastStays(l: Ledger, s: int, rounds: Rounds, n: nat)
    requires LedgerOk(l) && AllOpened(l, s) && Trace(l, CutTasks(l, s), rounds) && 0 < n <= |rounds|
    requires !exists a, j :: SendAbove(l, s, a, j)
    ensures LastOf(rounds[..n]) == HeightsOf(CutTasks(l, s))
  {
    if n == 1 {
      FirstIsLast(rounds);
    } else {
      LastStays(l, s, rounds, n - 1);
      LaterRoundIsEmpty(l, s, rounds, n - 1);
      EmptyAddsNothing(rounds, n);
    }
  }

  lemma LaterRoundIsEmpty(l: Ledger, s: int, rounds: Rounds, i: nat)
    requires LedgerOk(l) && AllOpened(l, s) && Trace(l, CutTasks(l, s), rounds) && 0 < i < |rounds|
    requires !exists a, j :: SendAbove(l, s, a, j)
    ensures rounds[i] == map[]
  {
    var tasks := rounds[i];
    if tasks != map[] {
      var b :| b in tasks;
      LaterRoundsAreAbove(l, s, rounds, i, b);
    }
  }
}
