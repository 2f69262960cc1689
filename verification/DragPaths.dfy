/** What the worklist returns, told from the ledger: the ways by which sends drag accounts along. */
module DragPaths {
  import opened Blocks
  import opened Accounts
  import opened Conservation
  import opened Worklist

  /** Rolling `a` back to height h drags `b` back to height r: a send above h has its receive there. */
  ghost predicate Drag(l: Ledger, a: Addr, h: int, b: Addr, r: int) {
    exists j :: j > h && IsSend(l, a, j) && l[a][j].to == b && ReceiverOf(l, l[a][j]) == Some(r)
  }

  /** A way of n drags leads from a task to height r of `b`. */
  ghost predicate Reaches(l: Ledger, start: map<Addr, Task>, n: nat, b: Addr, r: int) {
    if n == 0 then b in start && r == start[b].height
    else exists a, h :: Reaches(l, start, n - 1, a, h) && Drag(l, a, h, b, r)
  }

  /** No way to `b` is longer. */
  ghost predicate Longest(l: Ledger, start: map<Addr, Task>, m: nat, b: Addr) {
    forall k: nat, r | m < k :: !Reaches(l, start, k, b, r)
  }

  /** Some way to `b` of the greatest length ends at r or below. */
  ghost predicate ReachedLast(l: Ledger, start: map<Addr, Task>, b: Addr, r: int) {
    exists m: nat, r' :: Reaches(l, start, m, b, r') && r' <= r && Longest(l, start, m, b)
  }

  // ---------------------------------------------------------------- rounds and ways

  /** Every task of a round is reached by a way as long as the round's number. */
  lemma {:induction false} RoundIsReached(l: Ledger, start: map<Addr, Task>, rounds: Rounds, i: nat, b: Addr)
    requires Trace(l, start, rounds) && i < |rounds| && b in rounds[i]
    ensures Reaches(l, start, i, b, rounds[i][b].height)
  {
    if i > 0 {
      var tasks, t := rounds[i - 1], rounds[i][b];
      assert NextRound(l, tasks, rounds[i]) && Caused(l, tasks, b, t);
      var v :| OfRound(l, tasks, v) && DraggedBy(l, v, b, t);
      var a, j :| a in tasks && Worklist.Names(l, a, tasks[a]) && j > tasks[a].height && IsSend(l, a, j) && l[a][j] == v;
      RoundIsReached(l, start, rounds, i - 1, a);
      assert Drag(l, a, tasks[a].height, b, t.height);
    }
  }

  /** And every way is followed by a round, at least as low. */
  lemma {:induction false} WayIsFollowed(l: Ledger, start: map<Addr, Task>, rounds: Rounds, n: nat, b: Addr, r: int)
    requires Trace(l, start, rounds) && Part(l, start) == start && n < |rounds| && Reaches(l, start, n, b, r)
    ensures b in rounds[n] && rounds[n][b].height <= r
  {
    if n > 0 {
      var a, h :| Reaches(l, start, n - 1, a, h) && Drag(l, a, h, b, r);
      var j :| j > h && IsSend(l, a, j) && l[a][j].to == b && ReceiverOf(l, l[a][j]) == Some(r);
      WayIsFollowed(l, start, rounds, n - 1, a, h);
      RoundIsNamed(l, start, rounds, n - 1);
      assert a in Part(l, rounds[n - 1]) && NextRound(l, rounds[n - 1], rounds[n]);
      assert OfRound(l, rounds[n - 1], l[a][j]);
      assert Drags(l, l[a][j], rounds[n]);
    }
  }

  /** No way is longer than a finished run. */
  lemma {:induction false} WaysEnd(l: Ledger, start: map<Addr, Task>, rounds: Rounds, n: nat, b: Addr, r: int)
    requires Finished(l, start, rounds) && Part(l, start) == start && Reaches(l, start, n, b, r)
    ensures n < |rounds| - 1
  {
    if n >= |rounds| {
      var a, h :| Reaches(l, start, n - 1, a, h) && Drag(l, a, h, b, r);
      WaysEnd(l, start, rounds, n - 1, a, h);
    } else {
      WayIsFollowed(l, start, rounds, n, b, r);
    }
  }

  /** The last of the first n rounds that has `b`. */
  lemma {:induction false} MetLast(rounds: Rounds, n: nat, b: Addr) returns (m: nat)
    requires n <= |rounds| && b in LastOf(rounds[..n])
    ensures m < n && b in rounds[m] && LastOf(rounds[..n])[b] == rounds[m][b].height
    ensures forall k | m < k < n :: b !in rounds[k]
  {
    assert rounds[..n][..n - 1] == rounds[..n - 1];
    if b in rounds[n - 1] {
      m := n - 1;
    } else {
      m := MetLast(rounds, n - 1, b);
    }
  }

  lemma {:induction false} MetIsLast(rounds: Rounds, n: nat, b: Addr, i: nat)
    requires i < n <= |rounds| && b in rounds[i]
    ensures b in LastOf(rounds[..n])
  {
    assert rounds[..n][..n - 1] == rounds[..n - 1];
    if b !in rounds[n - 1] { MetIsLast(rounds, n - 1, b, i); }
  }

  /** One round more. */
  lemma LowestStep(l: Ledger, start: map<Addr, Task>, rounds: Rounds, n: nat, b: Addr)
    requires Trace(l, start, rounds) && Part(l, start) == start && 0 < n <= |rounds|
    ensures var before, now := LowestOf(l, rounds[..n - 1]), LowestOf(l, rounds[..n]);
            && (b in now <==> b in before || b in rounds[n - 1])
            && (b in now ==> now[b] == if b !in rounds[n - 1] then before[b]
                                       else if b !in before then rounds[n - 1][b].height
                                       else Min(before[b], rounds[n - 1][b].height))
  {
    assert rounds[..n][..n - 1] == rounds[..n - 1];
    RoundIsNamed(l, start, rounds, n - 1);
  }

  /** The lowest height of `b` is no higher than any it was met at. */
  lemma {:induction false} LowestIsBelow(l: Ledger, start: map<Addr, Task>, rounds: Rounds, n: nat, b: Addr, k: nat)
    requires Trace(l, start, rounds) && Part(l, start) == start && k < n <= |rounds| && b in rounds[k]
    ensures b in LowestOf(l, rounds[..n]) && LowestOf(l, rounds[..n])[b] <= rounds[k][b].height
  {
    LowestStep(l, start, rounds, n, b);
    if k < n - 1 { LowestIsBelow(l, start, rounds, n - 1, b, k); }
  }

  /** And it is one of them. */
  lemma {:induction false} LowestIsMet(l: Ledger, start: map<Addr, Task>, rounds: Rounds, n: nat, b: Addr) returns (i: nat)
    requires Trace(l, start, rounds) && Part(l, start) == start && n <= |rounds| && b in LowestOf(l, rounds[..n])
    ensures i < n && b in rounds[i] && LowestOf(l, rounds[..n])[b] == rounds[i][b].height
  {
    LowestStep(l, start, rounds, n, b);
    var before := LowestOf(l, rounds[..n - 1]);
    if b in before && LowestOf(l, rounds[..n])[b] == before[b] {
      i := LowestIsMet(l, start, rounds, n - 1, b);
    } else {
      i := n - 1;
    }
  }

  // ---------------------------------------------------------------- what is returned

  /** The height returned for `b` is where its longest ways end at the lowest. */
  lemma ReturnedAtLongest(l: Ledger, start: map<Addr, Task>, rounds: Rounds, b: Addr) returns (m: nat)
    requires Finished(l, start, rounds) && Part(l, start) == start && b in LastOf(rounds)
    ensures Reaches(l, start, m, b, LastOf(rounds)[b]) && Longest(l, start, m, b)
    ensures forall r | Reaches(l, start, m, b, r) :: LastOf(rounds)[b] <= r
  {
    assert rounds[..|rounds|] == rounds;
    m := MetLast(rounds, |rounds|, b);
    RoundIsReached(l, start, rounds, m, b);
    forall k: nat, r | m < k
      ensures !Reaches(l, start, k, b, r)
    {
      if Reaches(l, start, k, b, r) {
        WaysEnd(l, start, rounds, k, b, r);
        WayIsFollowed(l, start, rounds, k, b, r);
      }
    }
    forall r | Reaches(l, start, m, b, r) ensures LastOf(rounds)[b] <= r { WayIsFollowed(l, start, rounds, m, b, r); }
  }

  /** Wherever a way leads to `b`, a longest one leads as low. */
  ghost predicate LowestByLongest(l: Ledger, start: map<Addr, Task>, b: Addr) {
    forall n: nat, r | Reaches(l, start, n, b, r) :: ReachedLast(l, start, b, r)
  }

  lemma ReturnedLowest(l: Ledger, start: map<Addr, Task>, rounds: Rounds, b: Addr)
    requires Finished(l, start, rounds) && Part(l, start) == start && b in LastOf(rounds) && b in LowestOf(l, rounds)
    requires LastOf(rounds)[b] == LowestOf(l, rounds)[b]
    ensures LowestByLongest(l, start, b)
  {
    var m := ReturnedAtLongest(l, start, rounds, b);
    forall n: nat, r | Reaches(l, start, n, b, r)
      ensures ReachedLast(l, start, b, r)
    {
      LowestIsNoHigher(l, start, rounds, b, n, r);
    }
  }

  lemma LowestIsNoHigher(l: Ledger, start: map<Addr, Task>, rounds: Rounds, b: Addr, n: nat, r: int)
    requires Finished(l, start, rounds) && Part(l, start) == start && Reaches(l, start, n, b, r)
    ensures b in LowestOf(l, rounds) && LowestOf(l, rounds)[b] <= r
  {
    assert rounds[..|rounds|] == rounds;
    WaysEnd(l, start, rounds, n, b, r);
    WayIsFollowed(l, start, rounds, n, b, r);
    LowestIsBelow(l, start, rounds, |rounds|, b, n);
  }

  lemma LongestIsReturned(l: Ledger, start: map<Addr, Task>, rounds: Rounds, b: Addr)
    requires Finished(l, start, rounds) && Part(l, start) == start && b in LastOf(rounds) && b in LowestOf(l, rounds)
    requires LowestByLongest(l, start, b)
    ensures LastOf(rounds)[b] <= LowestOf(l, rounds)[b]
  {
    var m := ReturnedAtLongest(l, start, rounds, b);
    assert rounds[..|rounds|] == rounds;
    var i := LowestIsMet(l, start, rounds, |rounds|, b);
    RoundIsReached(l, start, rounds, i, b);
    LongestBounds(l, start, b, m, LastOf(rounds)[b], LowestOf(l, rounds)[b]);
  }

  lemma LongestBounds(l: Ledger, start: map<Addr, Task>, b: Addr, m: nat, x: int, low: int)
    requires Reaches(l, start, m, b, x) && Longest(l, start, m, b) && forall r | Reaches(l, start, m, b, r) :: x <= r
    requires ReachedLast(l, start, b, low)
    ensures x <= low
  {
    var k: nat, r :| Reaches(l, start, k, b, r) && r <= low && Longest(l, start, k, b);
    assert k == m;
  }

  /** What the loop returns is a consistent rollback exactly when every account that is reached at all
      is reached at its lowest by its longest ways. */
  lemma ReturnedIsClosedExactly(l: Ledger, start: map<Addr, Task>, rounds: Rounds)
    requires Finished(l, start, rounds) && Part(l, start) == start
    ensures ClosedCover(l, start, LastOf(rounds)) <==> forall b :: LowestByLongest(l, start, b)
  {
    assert rounds[..|rounds|] == rounds;
    LastIsClosedExactly(l, start, rounds);
    LastIsAbove(l, start, rounds, |rounds|);
    if LastOf(rounds) == LowestOf(l, rounds) {
      forall b ensures LowestByLongest(l, start, b) {
        if b in LastOf(rounds) { ReturnedLowest(l, start, rounds, b); } else { NotReached(l, start, rounds, b); }
      }
    }
    if forall b :: LowestByLongest(l, start, b) {
      forall b | b in LastOf(rounds)
        ensures LastOf(rounds)[b] == LowestOf(l, rounds)[b]
      {
        LongestIsReturned(l, start, rounds, b);
      }
    }
  }

  /** An account that is not returned is not reached. */
  lemma NotReached(l: Ledger, start: map<Addr, Task>, rounds: Rounds, b: Addr)
    requires Finished(l, start, rounds) && Part(l, start) == start && b !in LastOf(rounds)
    ensures LowestByLongest(l, start, b)
  {
    assert rounds[..|rounds|] == rounds;
    forall n: nat, r
      ensures !Reaches(l, start, n, b, r)
    {
      if Reaches(l, start, n, b, r) {
        WaysEnd(l, start, rounds, n, b, r);
        WayIsFollowed(l, start, rounds, n, b, r);
        MetIsLast(rounds, |rounds|, b, n);
      }
    }
  }

  // ---------------------------------------------------------------- one task

  /** Ways rise in causal rank. */
  lemma {:induction false} WaysRise(l: Ledger, rank: map<Pos, nat>, bound: nat, a: Addr, t: Task, n: nat, b: Addr, r: int)
    requires Causal(l, rank, bound) && Worklist.Names(l, a, t) && Reaches(l, map[a := t], n, b, r)
    ensures b in l && 0 <= r < |l[b]| && (a, t.height) in rank && (b, r) in rank
    ensures rank[(a, t.height)] + n <= rank[(b, r)]
  {
    assert InLedger(l, (a, t.height));
    if n > 0 {
      var c, h :| Reaches(l, map[a := t], n - 1, c, h) && Drag(l, c, h, b, r);
      var j :| j > h && IsSend(l, c, j) && l[c][j].to == b && ReceiverOf(l, l[c][j]) == Some(r);
      WaysRise(l, rank, bound, a, t, n - 1, c, h);
      ReceiverRanksAbove(l, rank, bound, c, h, j);
    }
  }

  lemma RankGivesHeight(l: Ledger, rank: map<Pos, nat>, bound: nat, a: Addr, i: nat, k: nat)
    requires Causal(l, rank, bound) && a in l && i < |l[a]| && k < |l[a]|
    requires (a, i) in rank && (a, k) in rank && rank[(a, k)] < rank[(a, i)]
    ensures k < i
  {
  }

  /** A way back to the task's own account ends above the task. */
  lemma ComesBackAbove(l: Ledger, rank: map<Pos, nat>, bound: nat, a: Addr, t: Task, n: nat, r: int)
    requires Causal(l, rank, bound) && Worklist.Names(l, a, t) && n > 0 && Reaches(l, map[a := t], n, a, r)
    ensures r > t.height
  {
    WaysRise(l, rank, bound, a, t, n, a, r);
    RankGivesHeight(l, rank, bound, a, r, t.height);
  }

  /** Some way of sends and receives leads back to the task's account. */
  ghost predicate ComesBack(l: Ledger, a: Addr, t: Task) {
    exists n: nat, r :: n > 0 && Reaches(l, map[a := t], n, a, r)
  }

  /** For the task of a single account: the account is returned above its task exactly when some way
      leads back to it. */
  lemma ReturnedAboveExactly(l: Ledger, rank: map<Pos, nat>, bound: nat, a: Addr, t: Task, rounds: Rounds)
    requires Causal(l, rank, bound) && Worklist.Names(l, a, t) && Finished(l, map[a := t], rounds)
    ensures a in LastOf(rounds) && LastOf(rounds)[a] >= t.height
    ensures LastOf(rounds)[a] > t.height <==> ComesBack(l, a, t)
  {
    var start := map[a := t];
    assert Part(l, start) == start && rounds[0] == start;
    assert rounds[..|rounds|] == rounds;
    MetIsLast(rounds, |rounds|, a, 0);
    var m := ReturnedAtLongest(l, start, rounds, a);
    if m > 0 {
      ComesBackAbove(l, rank, bound, a, t, m, LastOf(rounds)[a]);
      assert ComesBack(l, a, t);
    }
  }
}
