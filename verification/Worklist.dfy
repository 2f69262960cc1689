/** Which accounts have to be rolled back with which: `getWaitRollbackAccounts`.

    A task names an account and the height to roll it back to. Rolling an account back removes its
    sends above that height, and each of those drags the account that received it back to the
    receive. The loop explores round after round until no task is left; `Trace` is what a run of it
    looks like, and the theorems are about every trace. */
module Worklist {
  import opened Blocks
  import opened Accounts
  import opened Conservation

  datatype Task = Task(height: int, hash: Hash)

  /** An account and a height for each; what the lowest explored heights are recorded in. */
  type Heights = map<Addr, int>

  /** A task names a stored block. */
  ghost predicate Names(l: Ledger, a: Addr, t: Task) {
    ByHeight(l, a, t.height).Some? && ByHeight(l, a, t.height).value.hash == t.hash
  }

  /** The tasks that name a stored block. The others are recorded but not explored. */
  ghost function Part(l: Ledger, tasks: map<Addr, Task>): map<Addr, Task> {
    map a | a in tasks && Names(l, a, tasks[a]) :: tasks[a]
  }

  ghost function HeightsOf(tasks: map<Addr, Task>): Heights {
    map a | a in tasks :: tasks[a].height
  }

  // ---------------------------------------------------------------- one step down the causal order

  /** Where the chain says the send was received. */
  function ReceiverOf(l: Ledger, v: AccBlock): Option<nat> {
    if v.to in l then BySource(l[v.to], |l[v.to]|, v.hash) else None
  }

  predicate IsSend(l: Ledger, a: Addr, j: int) {
    a in l && 0 <= j < |l[a]| && l[a][j].kind.Send?
  }

  /** Above each height, every send has a receiver, whose account is in the map at or below the
      receive. */
  ghost predicate Closed(l: Ledger, x: Heights) {
    forall a, j | a in x && IsSend(l, a, j) && j > x[a] :: Pulled(l, x, l[a][j])
  }

  ghost predicate Pulled(l: Ledger, x: Heights, v: AccBlock) {
    ReceiverOf(l, v).Some? && v.to in x && x[v.to] <= ReceiverOf(l, v).value
  }

  ghost predicate Covers(x: Heights, tasks: map<Addr, Task>) {
    forall a | a in tasks :: a in x && x[a] <= tasks[a].height
  }

  ghost predicate Within(low: Heights, x: Heights) {
    forall a | a in low :: a in x && x[a] <= low[a]
  }

  ghost predicate ClosedCover(l: Ledger, start: map<Addr, Task>, x: Heights) {
    Closed(l, x) && Covers(x, start)
  }

  // ---------------------------------------------------------------- rounds

  type Rounds = seq<map<Addr, Task>>

  /** The sends a round meets: those above a task of it that names a block. */
  ghost predicate OfRound(l: Ledger, tasks: map<Addr, Task>, v: AccBlock) {
    exists a, j :: a in tasks && Names(l, a, tasks[a]) && j > tasks[a].height && IsSend(l, a, j) && l[a][j] == v
  }

  /** The receive of the send is a task, or there is a lower one for its account. */
  ghost predicate Drags(l: Ledger, v: AccBlock, next: map<Addr, Task>) {
    ReceiverOf(l, v).Some? && v.to in next && next[v.to].height <= ReceiverOf(l, v).value
  }

  ghost predicate DraggedBy(l: Ledger, v: AccBlock, a: Addr, t: Task) {
    v.to == a && ReceiverOf(l, v) == Some(t.height) && Names(l, a, t)
  }

  /** The next round: the lowest receive per account of the sends of this one. */
  ghost predicate NextRound(l: Ledger, tasks: map<Addr, Task>, next: map<Addr, Task>) {
    && (forall v | OfRound(l, tasks, v) :: Drags(l, v, next))
    && (forall a {:trigger Caused(l, tasks, a, next[a])} | a in next :: Caused(l, tasks, a, next[a]))
  }

  ghost predicate Caused(l: Ledger, tasks: map<Addr, Task>, a: Addr, t: Task) {
    exists v :: OfRound(l, tasks, v) && DraggedBy(l, v, a, t)
  }

  /** The rounds of a run up to the one pending. */
  ghost predicate Trace(l: Ledger, start: map<Addr, Task>, rounds: Rounds) {
    && rounds != [] && rounds[0] == start
    && (forall i | 0 < i < |rounds| :: NextRound(l, rounds[i - 1], rounds[i]))
  }

  ghost predicate Finished(l: Ledger, start: map<Addr, Task>, rounds: Rounds) {
    Trace(l, start, rounds) && rounds[|rounds| - 1] == map[]
  }

  /** The receive of the send is found: there is one, and the lookup does not start at a head that is
      no longer stored. */
  predicate Findable(l: Ledger, heads: Heads, v: AccBlock) {
    ReceiverOf(l, v).Some? && v.to in heads && !StaleHead(l, heads, v.to)
  }

  ghost predicate AllFound(l: Ledger, heads: Heads, tasks: map<Addr, Task>) {
    forall v | OfRound(l, tasks, v) :: Findable(l, heads, v)
  }

  /** The last round meets a send whose receive is not found: the run dereferences nil. */
  ghost predicate Crashed(l: Ledger, heads: Heads, start: map<Addr, Task>, rounds: Rounds) {
    && Trace(l, start, rounds)
    && exists v :: OfRound(l, rounds[|rounds| - 1], v) && !Findable(l, heads, v)
  }

  /** Every send above the heights has its receive found. */
  ghost predicate Followable(l: Ledger, heads: Heads, x: Heights) {
    forall a, j | a in x && IsSend(l, a, j) && j > x[a] :: Findable(l, heads, l[a][j])
  }

  /** The lowest height explored per account. */
  ghost function LowestOf(l: Ledger, rounds: Rounds): Heights {
    if rounds == [] then map[]
    else Lowered(LowestOf(l, rounds[..|rounds| - 1]), Part(l, rounds[|rounds| - 1]))
  }

  ghost function Lowered(low: Heights, tasks: map<Addr, Task>): Heights {
    map a | a in low.Keys + tasks.Keys ::
      if a !in tasks then low[a] else if a !in low then tasks[a].height else Min(low[a], tasks[a].height)
  }

  /** The height met last per account. */
  ghost function LastOf(rounds: Rounds): Heights {
    if rounds == [] then map[]
    else LastOf(rounds[..|rounds| - 1]) + HeightsOf(rounds[|rounds| - 1])
  }

  // ---------------------------------------------------------------- the least closure

  lemma LowestOfPrefix(l: Ledger, start: map<Addr, Task>, rounds: Rounds)
    requires Trace(l, start, rounds) && |rounds| > 1
    ensures Trace(l, start, rounds[..|rounds| - 1])
    ensures NextRound(l, rounds[|rounds| - 2], rounds[|rounds| - 1])
  {
  }

  /** The lowest heights explored cover the starting tasks. */
  lemma {:induction false} LowestCovers(l: Ledger, start: map<Addr, Task>, rounds: Rounds)
    requires Trace(l, start, rounds)
    ensures Covers(LowestOf(l, rounds), Part(l, start))
    decreases |rounds|
  {
    if |rounds| == 1 {
      assert LowestOf(l, rounds[..0]) == map[];
    } else {
      LowestOfPrefix(l, start, rounds);
      LowestCovers(l, start, rounds[..|rounds| - 1]);
    }
  }

  /** The sends above what was explored before the pending round have their receivers explored or
      pending. */
  lemma {:induction false} ExploredIsClosed(l: Ledger, start: map<Addr, Task>, rounds: Rounds, a: Addr, j: int)
    requires Trace(l, start, rounds)
    requires var before := LowestOf(l, rounds[..|rounds| - 1]);
             a in before && IsSend(l, a, j) && j > before[a]
    ensures Pulled(l, LowestOf(l, rounds), l[a][j])
    decreases |rounds|
  {
    var n := |rounds|;
    if n > 1 {
      LowestOfPrefix(l, start, rounds);
      var prefix := rounds[..n - 1];
      var earlier := LowestOf(l, prefix[..n - 2]);
      if a in earlier && j > earlier[a] {
        ExploredIsClosed(l, start, prefix, a, j);
      } else {
        assert prefix[n - 2] == rounds[n - 2];
        SendIsDragged(l, rounds[n - 2], rounds[n - 1], a, j);
      }
    }
  }

  lemma SendIsDragged(l: Ledger, tasks: map<Addr, Task>, next: map<Addr, Task>, a: Addr, j: int)
    requires NextRound(l, tasks, next) && a in Part(l, tasks) && IsSend(l, a, j) && j > tasks[a].height
    ensures Drags(l, l[a][j], Part(l, next))
  {
    assert OfRound(l, tasks, l[a][j]);
    var t := l[a][j].to;
    assert t in next;
    assert Caused(l, tasks, t, next[t]);
  }

  /** Every closed cover of the starting tasks reaches down to every task. */
  lemma {:induction false} CoverReaches(l: Ledger, start: map<Addr, Task>, rounds: Rounds, x: Heights, i: nat)
    requires Trace(l, start, rounds) && ClosedCover(l, Part(l, start), x) && i < |rounds|
    ensures Covers(x, Part(l, rounds[i]))
  {
    if i > 0 {
      CoverReaches(l, start, rounds, x, i - 1);
      var tasks, next := rounds[i - 1], rounds[i];
      forall b | b in Part(l, next)
        ensures b in x && x[b] <= next[b].height
      {
        assert NextRound(l, tasks, next);
        assert Caused(l, tasks, b, next[b]);
        var v :| OfRound(l, tasks, v) && DraggedBy(l, v, b, next[b]);
        PulledByCover(l, tasks, x, v);
      }
    }
  }

  lemma PulledByCover(l: Ledger, tasks: map<Addr, Task>, x: Heights, v: AccBlock)
    requires Closed(l, x) && Covers(x, Part(l, tasks)) && OfRound(l, tasks, v)
    ensures Pulled(l, x, v)
  {
    var a, j :| a in tasks && Names(l, a, tasks[a]) && j > tasks[a].height && IsSend(l, a, j) && l[a][j] == v;
    assert a in Part(l, tasks);
  }

  lemma {:induction false} LowestIsWithin(l: Ledger, start: map<Addr, Task>, rounds: Rounds, x: Heights, n: nat)
    requires Trace(l, start, rounds) && ClosedCover(l, Part(l, start), x) && n <= |rounds|
    ensures Within(LowestOf(l, rounds[..n]), x)
  {
    if n > 0 {
      LowestIsWithin(l, start, rounds, x, n - 1);
      CoverReaches(l, start, rounds, x, n - 1);
      assert rounds[..n][..n - 1] == rounds[..n - 1];
    }
  }

  /** When a run finishes, the lowest heights it explored are the least closed cover of the tasks it
      started from. */
  lemma LowestIsLeastClosure(l: Ledger, start: map<Addr, Task>, rounds: Rounds)
    requires Finished(l, start, rounds)
    ensures ClosedCover(l, Part(l, start), LowestOf(l, rounds))
    ensures forall x | ClosedCover(l, Part(l, start), x) :: Within(LowestOf(l, rounds), x)
  {
    LowestCovers(l, start, rounds);
    var low := LowestOf(l, rounds);
    assert low == LowestOf(l, rounds[..|rounds| - 1]);
    forall a, j | a in low && IsSend(l, a, j) && j > low[a]
      ensures Pulled(l, low, l[a][j])
    {
      ExploredIsClosed(l, start, rounds, a, j);
    }
    forall x | ClosedCover(l, Part(l, start), x)
      ensures Within(low, x)
    {
      LowestIsWithin(l, start, rounds, x, |rounds|);
      assert rounds[..|rounds|] == rounds;
    }
  }

  /** A run crashes only where nothing could have been rolled back consistently, or some receive it
      would have to follow is not found. */
  lemma CrashMeansNoClosure(l: Ledger, heads: Heads, start: map<Addr, Task>, rounds: Rounds, x: Heights)
    requires Crashed(l, heads, start, rounds)
    ensures !(ClosedCover(l, Part(l, start), x) && Followable(l, heads, x))
  {
    if ClosedCover(l, Part(l, start), x) && Followable(l, heads, x) {
      var last := rounds[|rounds| - 1];
      var v :| OfRound(l, last, v) && !Findable(l, heads, v);
      CoverReaches(l, start, rounds, x, |rounds| - 1);
      FoundByCover(l, heads, last, x, v);
    }
  }

  lemma FoundByCover(l: Ledger, heads: Heads, tasks: map<Addr, Task>, x: Heights, v: AccBlock)
    requires Followable(l, heads, x) && Covers(x, Part(l, tasks)) && OfRound(l, tasks, v)
    ensures Findable(l, heads, v)
  {
    var a, j :| a in tasks && Names(l, a, tasks[a]) && j > tasks[a].height && IsSend(l, a, j) && l[a][j] == v;
    assert a in Part(l, tasks);
  }

  /** Every lowest height is that of a task of some round. */
  lemma {:induction false} LowestIsTask(l: Ledger, rounds: Rounds, n: nat, a: Addr) returns (i: nat)
    requires n <= |rounds| && a in LowestOf(l, rounds[..n])
    ensures i < n && a in rounds[i] && Names(l, a, rounds[i][a]) && LowestOf(l, rounds[..n])[a] == rounds[i][a].height
  {
    assert rounds[..n][..n - 1] == rounds[..n - 1];
    var before := LowestOf(l, rounds[..n - 1]);
    if a in before && LowestOf(l, rounds[..n])[a] == before[a] {
      i := LowestIsTask(l, rounds, n - 1, a);
    } else {
      i := n - 1;
    }
  }

  /** Where every round found its receives, so does the lowest of what was explored. */
  lemma ExploredIsFound(l: Ledger, heads: Heads, rounds: Rounds, n: nat, a: Addr, j: int)
    requires n <= |rounds| && forall i | 0 <= i < n :: AllFound(l, heads, rounds[i])
    requires a in LowestOf(l, rounds[..n]) && IsSend(l, a, j) && j > LowestOf(l, rounds[..n])[a]
    ensures Findable(l, heads, l[a][j])
  {
    var i := LowestIsTask(l, rounds, n, a);
    assert AllFound(l, heads, rounds[i]) && OfRound(l, rounds[i], l[a][j]);
  }

  lemma LowestIsFollowable(l: Ledger, heads: Heads, start: map<Addr, Task>, rounds: Rounds)
    requires Finished(l, start, rounds) && forall i | 0 <= i < |rounds| - 1 :: AllFound(l, heads, rounds[i])
    ensures Followable(l, heads, LowestOf(l, rounds))
  {
    var low := LowestOf(l, rounds);
    assert low == LowestOf(l, rounds[..|rounds| - 1]);
    forall a, j | a in low && IsSend(l, a, j) && j > low[a]
      ensures Findable(l, heads, l[a][j])
    {
      ExploredIsFound(l, heads, rounds, |rounds| - 1, a, j);
    }
  }

  // ---------------------------------------------------------------- what the run returns

  /** Heights met last are never below the lowest. */
  lemma {:induction false} LastIsAbove(l: Ledger, start: map<Addr, Task>, rounds: Rounds, n: nat)
    requires Trace(l, start, rounds) && Part(l, start) == start && n <= |rounds|
    ensures LastOf(rounds[..n]).Keys == LowestOf(l, rounds[..n]).Keys
    ensures forall a | a in LastOf(rounds[..n]) :: LowestOf(l, rounds[..n])[a] <= LastOf(rounds[..n])[a]
  {
    if n > 0 {
      LastIsAbove(l, start, rounds, n - 1);
      assert rounds[..n][..n - 1] == rounds[..n - 1];
      RoundIsNamed(l, start, rounds, n - 1);
    }
  }

  lemma RoundIsNamed(l: Ledger, start: map<Addr, Task>, rounds: Rounds, i: nat)
    requires Trace(l, start, rounds) && i < |rounds| && (i == 0 ==> Part(l, start) == start)
    ensures Part(l, rounds[i]) == rounds[i]
  {
    if i > 0 {
      assert NextRound(l, rounds[i - 1], rounds[i]);
      forall a | a in rounds[i]
        ensures Names(l, a, rounds[i][a])
      {
        assert Caused(l, rounds[i - 1], a, rounds[i][a]);
      }
    }
  }

  /** What the run returns is the height met last per account. It is a consistent rollback exactly
      when no account was met lower in an earlier round. */
  lemma LastIsClosedExactly(l: Ledger, start: map<Addr, Task>, rounds: Rounds)
    requires Finished(l, start, rounds) && Part(l, start) == start
    ensures ClosedCover(l, start, LastOf(rounds)) <==> LastOf(rounds) == LowestOf(l, rounds)
  {
    LowestIsLeastClosure(l, start, rounds);
    LastIsAbove(l, start, rounds, |rounds|);
    assert rounds[..|rounds|] == rounds;
    if ClosedCover(l, start, LastOf(rounds)) {
      assert Within(LowestOf(l, rounds), LastOf(rounds));
    }
  }

  // ---------------------------------------------------------------- causal rank

  /** Later blocks of an account and the receives of a send rank above it; ranks stay below
      `bound`. */
  ghost predicate Causal(l: Ledger, rank: map<Pos, nat>, bound: nat) {
    && (forall p | InLedger(l, p) :: p in rank && rank[p] < bound)
    && (forall a, i: nat, j: nat | a in l && i < j < |l[a]| :: rank[(a, i)] < rank[(a, j)])
    && (forall p, q | InLedger(l, p) && InLedger(l, q) && BlockAt(l, p).kind.Send? && BlockAt(l, q).kind.Received?
                      && BlockAt(l, q).sourceHash == BlockAt(l, p).hash :: rank[p] < rank[q])
  }

  /** What a task names ranks at `lo` or above. */
  ghost predicate RanksFrom(l: Ledger, rank: map<Pos, nat>, a: Addr, t: Task, lo: nat) {
    t.height >= 0 && (a, t.height) in rank && rank[(a, t.height)] >= lo
  }

  lemma ReceiverRanksAbove(l: Ledger, rank: map<Pos, nat>, bound: nat, a: Addr, h: nat, j: nat)
    requires Causal(l, rank, bound) && a in l && h < j < |l[a]| && l[a][j].kind.Send?
    requires ReceiverOf(l, l[a][j]).Some?
    ensures var v := l[a][j];
            var r := ReceiverOf(l, v).value;
            && v.to in l && r < |l[v.to]| && (a, h) in rank && (v.to, r) in rank && rank[(a, h)] < rank[(v.to, r)]
  {
    var v := l[a][j];
    BySourceFinds(l[v.to], |l[v.to]|, v.hash);
    var p, q: Pos := (a, j), (v.to, ReceiverOf(l, v).value);
    assert InLedger(l, p) && InLedger(l, q) && InLedger(l, (a, h));
    assert BlockAt(l, p) == v;
  }

  /** The least rank of the tasks rises with every round, so there are at most `bound` rounds. */
  lemma {:induction false} RanksRise(l: Ledger, rank: map<Pos, nat>, bound: nat, start: map<Addr, Task>, rounds: Rounds, i: nat, a: Addr)
    requires Causal(l, rank, bound) && Trace(l, start, rounds) && i < |rounds| && a in Part(l, rounds[i])
    ensures RanksFrom(l, rank, a, rounds[i][a], i) && i < bound
    decreases i
  {
    var t := rounds[i][a];
    assert InLedger(l, (a, t.height));
    if i > 0 {
      var tasks := rounds[i - 1];
      assert NextRound(l, tasks, rounds[i]);
      assert Caused(l, tasks, a, t);
      var v :| OfRound(l, tasks, v) && DraggedBy(l, v, a, t);
      var b, j :| b in tasks && Names(l, b, tasks[b]) && j > tasks[b].height && IsSend(l, b, j) && l[b][j] == v;
      assert b in Part(l, tasks);
      RanksRise(l, rank, bound, start, rounds, i - 1, b);
      ReceiverRanksAbove(l, rank, bound, b, tasks[b].height, j);
    }
  }

  // ---------------------------------------------------------------- the loop

  /** `sends` lists the sends of the account above height `h`. */
  ghost predicate SendsAbove(l: Ledger, a: Addr, h: int, sends: seq<AccBlock>) {
    && (forall v | v in sends :: exists j :: j > h && IsSend(l, a, j) && l[a][j] == v)
    && (forall j | j > h && IsSend(l, a, j) :: l[a][j] in sends)
  }

  /** `sends` lists the sends above the tasks of the accounts in `done`. */
  ghost predicate SendsOf(l: Ledger, tasks: map<Addr, Task>, done: set<Addr>, sends: seq<AccBlock>)
    requires done <= tasks.Keys
  {
    && (forall v | v in sends :: OfRound(l, tasks, v))
    && (forall a, j {:trigger Listed(l, sends, a, j)} | a in done && Names(l, a, tasks[a]) && j > tasks[a].height && IsSend(l, a, j) ::
          Listed(l, sends, a, j))
  }

  ghost predicate Listed(l: Ledger, sends: seq<AccBlock>, a: Addr, j: int)
    requires IsSend(l, a, j)
  {
    l[a][j] in sends
  }

  lemma SendsGrow(l: Ledger, tasks: map<Addr, Task>, done: set<Addr>, sends: seq<AccBlock>, k: Addr, more: seq<AccBlock>)
    requires done <= tasks.Keys && k in tasks && SendsOf(l, tasks, done, sends)
    requires if Names(l, k, tasks[k]) then SendsAbove(l, k, tasks[k].height, more) else more == []
    ensures SendsOf(l, tasks, done + {k}, sends + more)
  {
    forall v | v in more
      ensures OfRound(l, tasks, v)
    {
      var j :| j > tasks[k].height && IsSend(l, k, j) && l[k][j] == v;
    }
    forall a, j | a in done + {k} && Names(l, a, tasks[a]) && j > tasks[a].height && IsSend(l, a, j)
      ensures Listed(l, sends + more, a, j)
    {
      if a != k { assert Listed(l, sends, a, j); }
    }
  }

  /** `TryRollback` of a task: the sends that a rollback to its height removes, from the head down,
      passing over a head that is no longer stored; no blocks when it does not name a stored block. */
  method TryRollback(l: Ledger, heads: Heads, a: Addr, t: Task) returns (ok: bool, sends: seq<AccBlock>)
    requires HeadsOk(l, heads)
    ensures ok <==> Names(l, a, t)
    ensures !ok ==> sends == []
    ensures ok ==> SendsAbove(l, a, t.height, sends)
  {
    sends := [];
    var w := ByHeight(l, a, t.height);
    if w.None? || w.value.hash != t.hash {
      return false, [];
    }
    ok := true;
    assert HeadOf(l, heads, a);
    var i := heads[a].height;
    while i > t.height
      invariant t.height <= i && SendsAbove(l, a, i, sends)
    {
      if ByHeight(l, a, i).Some? && l[a][i].kind.Send? {
        assert IsSend(l, a, i);
        sends := sends + [l[a][i]];
      }
      i := i - 1;
    }
  }

  /** `canAdd`: `h` is closer to genesis. */
  predicate CanAdd(hs: map<Addr, Task>, a: Addr, h: Task) {
    a in hs ==> h.height < hs[a].height
  }

  /** `addWaitRollback`. */
  function AddWait(hs: map<Addr, Task>, a: Addr, h: Task): map<Addr, Task> {
    if a !in hs || hs[a].height < h.height then hs[a := h] else hs
  }

  /** The first half of a round: empty the tasks into `wait` and collect their sends. What `wait`
      ends with for an account is its task of this round, lower or not. */
  method Explore(l: Ledger, heads: Heads, tasks: map<Addr, Task>, wait: map<Addr, Task>)
    returns (wait': map<Addr, Task>, sends: seq<AccBlock>)
    requires HeadsOk(l, heads)
    ensures Recorded(wait, tasks, tasks.Keys, wait') && SendsOf(l, tasks, tasks.Keys, sends)
  {
    wait', sends := wait, [];
    var left := tasks.Keys;
    ghost var done: set<Addr> := {};
    while left != {}
      invariant left !! done && left + done == tasks.Keys && done <= tasks.Keys
      invariant left == {} ==> done == tasks.Keys
      invariant Recorded(wait, tasks, done, wait') && SendsOf(l, tasks, done, sends)
      decreases |left|
    {
      var k :| k in left;
      wait', sends := ExploreOne(l, heads, tasks, wait, wait', sends, done, k);
      OneLess(left, done, tasks.Keys, k);
      left, done := left - {k}, done + {k};
    }
  }

  lemma OneLess(left: set<Addr>, done: set<Addr>, all: set<Addr>, k: Addr)
    requires left !! done && left + done == all && k in left
    ensures left - {k} !! done + {k} && (left - {k}) + (done + {k}) == all && |left - {k}| < |left|
    ensures left - {k} == {} ==> done + {k} == all
  {
  }

  method ExploreOne(l: Ledger, heads: Heads, tasks: map<Addr, Task>, ghost wait: map<Addr, Task>, sofar: map<Addr, Task>,
                    before: seq<AccBlock>, ghost done: set<Addr>, k: Addr)
    returns (wait': map<Addr, Task>, sends: seq<AccBlock>)
    requires HeadsOk(l, heads) && done <= tasks.Keys && k in tasks
    requires Recorded(wait, tasks, done, sofar) && SendsOf(l, tasks, done, before)
    ensures Recorded(wait, tasks, done + {k}, wait') && SendsOf(l, tasks, done + {k}, sends)
  {
    var t := tasks[k];
    RecordedGrows(wait, tasks, done, sofar, k);
    wait' := Record(sofar, k, t);
    var ok, blocks := TryRollback(l, heads, k, t);
    SendsGrow(l, tasks, done, before, k, blocks);
    sends := before + blocks;
  }

  lemma RecordedGrows(wait: map<Addr, Task>, tasks: map<Addr, Task>, done: set<Addr>, wait': map<Addr, Task>, k: Addr)
    requires done <= tasks.Keys && k in tasks && Recorded(wait, tasks, done, wait')
    ensures Recorded(wait, tasks, done + {k}, Record(wait', k, tasks[k]))
  {
    RecordKeepsLast(wait', k, tasks[k]);
  }

  /** For the accounts in `done` the tasks' heights are recorded; for others nothing changed. */
  ghost predicate Recorded(wait: map<Addr, Task>, tasks: map<Addr, Task>, done: set<Addr>, wait': map<Addr, Task>)
    requires done <= tasks.Keys
  {
    && wait'.Keys == wait.Keys + done
    && (forall a | a in done :: wait'[a].height == tasks[a].height)
    && (forall a | a in done :: wait'[a] == tasks[a] || (a in wait && wait'[a] == wait[a]))
    && (forall a | a in wait && a !in done :: wait'[a] == wait[a])
  }

  /** The two updates of `waitRollback`, one after the other. */
  function Record(wait: map<Addr, Task>, a: Addr, t: Task): map<Addr, Task> {
    AddWait(if CanAdd(wait, a, t) then wait[a := t] else wait, a, t)
  }

  /** Together they record the task last seen, whether lower or higher than the one before; one of the
      same height stays. */
  lemma RecordKeepsLast(wait: map<Addr, Task>, a: Addr, t: Task)
    ensures Record(wait, a, t).Keys == wait.Keys + {a} && Record(wait, a, t)[a].height == t.height
    ensures Record(wait, a, t)[a] == if a in wait && wait[a].height == t.height then wait[a] else t
    ensures forall b | b in wait && b != a :: Record(wait, a, t)[b] == wait[b]
  {
  }

  /** The second half: the receivers of the sends become tasks, the lowest per account. The run ends
      at a send whose receive is not found: nil is dereferenced before it is compared with nil, or on
      the way down from a head that is no longer stored. */
  method Follow(l: Ledger, heads: Heads, ghost round: map<Addr, Task>, sends: seq<AccBlock>)
    returns (ok: bool, tasks: map<Addr, Task>)
    requires SendsOf(l, round, round.Keys, sends)
    ensures ok ==> NextRound(l, round, tasks) && AllFound(l, heads, round)
    ensures !ok ==> exists v :: OfRound(l, round, v) && !Findable(l, heads, v)
  {
    ok, tasks := true, map[];
    var k := 0;
    while k < |sends| && ok
      invariant k <= |sends|
      invariant !ok ==> exists v :: OfRound(l, round, v) && !Findable(l, heads, v)
      invariant forall a {:trigger Caused(l, round, a, tasks[a])} | a in tasks :: Caused(l, round, a, tasks[a])
      invariant forall i | 0 <= i < k :: Drags(l, sends[i], tasks) && Findable(l, heads, sends[i])
      decreases |sends| - k, ok
    {
      var v := sends[k];
      assert OfRound(l, round, v);
      if !Findable(l, heads, v) {
        ok := false;
      } else {
        var r := ReceiverOf(l, v).value;
        BySourceFinds(l[v.to], |l[v.to]|, v.hash);
        var h := Task(r, l[v.to][r].hash);
        assert DraggedBy(l, v, v.to, h) && Caused(l, round, v.to, h);
        if CanAdd(tasks, v.to, h) {
          tasks := tasks[v.to := h];
        }
        k := k + 1;
      }
    }
    if ok {
      forall v | OfRound(l, round, v)
        ensures Drags(l, v, tasks) && Findable(l, heads, v)
      {
        var a, j :| a in round && Names(l, a, round[a]) && j > round[a].height && IsSend(l, a, j) && l[a][j] == v;
        assert Listed(l, sends, a, j);
      }
    }
  }

  /** Every task names a stored block. */
  ghost predicate AllNamed(l: Ledger, tasks: map<Addr, Task>) {
    forall a | a in tasks :: Names(l, a, tasks[a])
  }

  lemma RecordedAreNamed(l: Ledger, start: map<Addr, Task>, rounds: Rounds, wait: map<Addr, Task>, wait': map<Addr, Task>)
    requires Trace(l, start, rounds) && Recorded(wait, rounds[|rounds| - 1], rounds[|rounds| - 1].Keys, wait')
    ensures Part(l, start) == start && AllNamed(l, wait) ==> AllNamed(l, wait')
  {
    if Part(l, start) == start { RoundIsNamed(l, start, rounds, |rounds| - 1); }
  }

  /** `getWaitRollbackAccounts`. It finishes, returning per account the height met last, exactly
      when there is a closed cover of the tasks above which every receive is found. What it returns
      names stored blocks if the tasks did. */
  method GetWaitRollbackAccounts(l: Ledger, heads: Heads, start: map<Addr, Task>, ghost rank: map<Pos, nat>, ghost bound: nat)
    returns (ok: bool, wait: map<Addr, Task>, ghost rounds: Rounds)
    requires Causal(l, rank, bound) && HeadsOk(l, heads)
    ensures ok ==> Finished(l, start, rounds) && HeightsOf(wait) == LastOf(rounds)
    ensures !ok ==> Crashed(l, heads, start, rounds)
    ensures ok <==> exists x :: ClosedCover(l, Part(l, start), x) && Followable(l, heads, x)
    ensures ok ==> ClosedCover(l, Part(l, start), LowestOf(l, rounds)) && Followable(l, heads, LowestOf(l, rounds))
    ensures ok && Part(l, start) == start ==> AllNamed(l, wait)
  {
    wait, rounds, ok := map[], [start], true;
    var tasks, more := start, true;
    while more
      invariant ok ==> Trace(l, start, rounds) && rounds[|rounds| - 1] == tasks
      invariant ok ==> HeightsOf(wait) == LastOf(rounds[..|rounds| - 1])
      invariant ok ==> forall i | 0 <= i < |rounds| - 1 :: AllFound(l, heads, rounds[i])
      invariant ok && Part(l, start) == start ==> AllNamed(l, wait)
      invariant ok && !more ==> tasks == map[]
      invariant !ok ==> !more && Crashed(l, heads, start, rounds)
      invariant more ==> |rounds| <= bound + 1
      decreases if more then bound + 2 - |rounds| else 0
    {
      ghost var before := wait;
      var sends;
      wait, sends := Explore(l, heads, tasks, wait);
      RecordedIsLast(rounds, before, wait);
      RecordedAreNamed(l, start, rounds, before, wait);
      ok, tasks := Follow(l, heads, tasks, sends);
      more := ok && tasks != map[];
      if ok {
        TraceGrows(l, start, rounds, tasks);
        assert (rounds + [tasks])[..|rounds|] == rounds;
        rounds := rounds + [tasks];
        if more {
          var a :| a in tasks;
          RoundIsNamed(l, start, rounds, |rounds| - 1);
          RanksRise(l, rank, bound, start, rounds, |rounds| - 1, a);
        }
      }
    }
    if ok {
      LowestIsLeastClosure(l, start, rounds);
      LowestIsFollowable(l, heads, start, rounds);
      assert HeightsOf(wait) == LastOf(rounds);
    } else {
      forall x ensures !(ClosedCover(l, Part(l, start), x) && Followable(l, heads, x)) {
        CrashMeansNoClosure(l, heads, start, rounds, x);
      }
    }
  }

  /** With every head current, finding receives asks no more than that they are there. */
  lemma CurrentHeadsFind(l: Ledger, heads: Heads, x: Heights)
    requires HeadsOk(l, heads) && Closed(l, x) && forall a | a in l :: a in heads && !StaleHead(l, heads, a)
    ensures Followable(l, heads, x)
  {
    forall a, j | a in x && IsSend(l, a, j) && j > x[a]
      ensures Findable(l, heads, l[a][j])
    {
      assert Pulled(l, x, l[a][j]);
    }
  }

  lemma RecordedIsLast(rounds: Rounds, wait: map<Addr, Task>, wait': map<Addr, Task>)
    requires rounds != [] && HeightsOf(wait) == LastOf(rounds[..|rounds| - 1])
    requires Recorded(wait, rounds[|rounds| - 1], rounds[|rounds| - 1].Keys, wait')
    ensures HeightsOf(wait') == LastOf(rounds)
  {
    HeightsMerge(wait, rounds[|rounds| - 1], wait');
  }

  lemma HeightsMerge(wait: map<Addr, Task>, tasks: map<Addr, Task>, wait': map<Addr, Task>)
    requires Recorded(wait, tasks, tasks.Keys, wait')
    ensures HeightsOf(wait') == HeightsOf(wait) + HeightsOf(tasks)
  {
    var merged := HeightsOf(wait) + HeightsOf(tasks);
    assert HeightsOf(wait').Keys == wait'.Keys && merged.Keys == wait.Keys + tasks.Keys;
    forall a | a in merged
      ensures HeightsOf(wait')[a] == merged[a]
    {
    }
  }

  lemma TraceGrows(l: Ledger, start: map<Addr, Task>, rounds: Rounds, next: map<Addr, Task>)
    requires Trace(l, start, rounds) && NextRound(l, rounds[|rounds| - 1], next)
    ensures Trace(l, start, rounds + [next])
  {
  }
}
