/** Accounts of two blocks on which locks and heads go wrong. */
module LockExamples {
  import opened Blocks
  import opened Accounts
  import opened Stores
  import opened AccountChains
  import opened SnapshotLocks
  import opened SnapshotVerifiers

  /** Two blocks, one on top of the other. */
  ghost predicate Two(b0: AccBlock, b1: AccBlock) {
    b0.height == 0 && b1.height == 1 && b0.hash != b1.hash
  }

  function Stacked(b0: AccBlock, b1: AccBlock): Acc {
    Acc([b0, b1], Some(b1), [])
  }

  lemma StackedIsReached(b0: AccBlock, b1: AccBlock)
    requires Two(b0, b1)
    ensures Steps(Acc([], None, []), [OpAppend(b0), OpAppend(b1)]) == Stacked(b0, b1)
  {
    var s, ops := Acc([], None, []), [OpAppend(b0), OpAppend(b1)];
    assert ops[..1] == [OpAppend(b0)] && ops[..1][..0] == [];
    assert Steps(s, ops[..1]) == Append(s, b0);
  }

  /** Removing the upper block leaves it as the head: the check at the end of a rollback to height 0
      finds a head at height 1. */
  lemma HeadAfterRemoval(b0: AccBlock, b1: AccBlock)
    requires Two(b0, b1)
    ensures Steps(Acc([], None, []), [OpAppend(b0), OpAppend(b1)]) == Stacked(b0, b1)
    ensures RemoveDown(Stacked(b0, b1), 0) == Acc([b0], Some(b1), [])
  {
    StackedIsReached(b0, b1);
    var s := Stacked(b0, b1);
    assert RemoveTop(s) == Acc([b0], Some(b1), []);
    assert RemoveDown(s, 0) == RemoveDown(RemoveTop(s), 0);
  }

  /** What such an account then offers the next snapshot makes the insertion dereference nil. */
  lemma StaleOfferCrashes(a: Addr, b0: AccBlock, b1: AccBlock)
    requires Two(b0, b1)
    ensures var s := RemoveDown(Stacked(b0, b1), 0);
            && NextPoint(s, a) == Some(AccountHashH(a, 1, b1.hash))
            && PushOutcome(s, 1, NextPoint(s, a).value) == Crashed
  {
    HeadAfterRemoval(b0, b1);
  }

  /** And the verifier accepts what follows the removed block, at height 2 over a chain of one, but
      nothing that follows the block that is left. */
  lemma StaleHeadAccepts(b0: AccBlock, b1: AccBlock, b2: AccBlock, c1: AccBlock)
    requires Two(b0, b1) && b2.kind.Send? && b2.height == 2 && b2.modified <= 0 && Follows(b1, b2)
    requires c1.height == 1 && c1.preHash == b0.hash
    ensures var s := RemoveDown(Stacked(b0, b1), 0);
            CheckSelfOn(s.head, b2) == SUCCESS && !Extends(s.chain, b2) && CheckSelfOn(s.head, c1) == FAIL
  {
    HeadAfterRemoval(b0, b1);
    StaleHeadMisleads(RemoveDown(Stacked(b0, b1), 0), b2);
  }

  // ---------------------------------------------------------------- snapshots of the account

  /** The height-0 snapshot, and snapshots that list the account at one height. */
  function Nothing(): SnapBlock {
    SnapBlock(0, "g", "", "", [])
  }

  function Lists(height: int, hash: Hash, preHash: Hash, a: Addr, b: AccBlock): SnapBlock {
    SnapBlock(height, hash, preHash, "", [AccountHashH(a, b.height, b.hash)])
  }

  function OneAccount(a: Addr, b0: AccBlock, b1: AccBlock, points: seq<Point>): Accs {
    map[a := Acc([b0, b1], Some(b1), points)]
  }

  lemma PushesOne(accs: Accs, b: SnapBlock, h: AccountHashH)
    requires b.accounts == [h] && h.addr in accs
    ensures PushAll(accs, b, 1) == (PushOutcome(accs[h.addr], b.height, h), accs[h.addr := Push(accs[h.addr], b.height, b.hash, h)])
  {
    assert PushAll(accs, b, 0) == (Done, accs);
  }

  lemma FreshIsMatched(a: Addr, b0: AccBlock, b1: AccBlock)
    requires Two(b0, b1)
    ensures Matched([Nothing()], OneAccount(a, b0, b1, []))
  {
    forall c ensures MatchedAt([Nothing()], OneAccount(a, b0, b1, []), c) { }
  }

  /** The account is listed once at height i and then once at height j. */
  function Twice(a: Addr, c: AccBlock, d: AccBlock): seq<SnapBlock> {
    [Nothing(), Lists(1, "p", "g", a, c), Lists(2, "q", "p", a, d)]
  }

  function LowPoint(b: AccBlock): Point {
    Point(1, "p", b.height, b.hash)
  }

  function HighPoint(b: AccBlock): Point {
    Point(2, "q", b.height, b.hash)
  }

  lemma OnceIsReached(a: Addr, b0: AccBlock, b1: AccBlock, c: AccBlock)
    requires Two(b0, b1) && (c == b0 || c == b1)
    ensures PushAll(OneAccount(a, b0, b1, []), Lists(1, "p", "g", a, c), 1) == (Done, OneAccount(a, b0, b1, [LowPoint(c)]))
    ensures Matched([Nothing(), Lists(1, "p", "g", a, c)], OneAccount(a, b0, b1, [LowPoint(c)]))
  {
    var accs, b := OneAccount(a, b0, b1, []), Lists(1, "p", "g", a, c);
    PushesOne(accs, b, b.accounts[0]);
    assert [] + [LowPoint(c)] == [LowPoint(c)];
    assert PushAll(accs, b, 1).1 == OneAccount(a, b0, b1, [LowPoint(c)]);
    FreshIsMatched(a, b0, b1);
    InsertKeepsMatchedExactly([Nothing()], accs, b);
    assert [Nothing()] + [b] == [Nothing(), b];
  }

  lemma TwiceIsReached(a: Addr, b0: AccBlock, b1: AccBlock)
    requires Two(b0, b1)
    ensures PushAll(OneAccount(a, b0, b1, [LowPoint(b0)]), Lists(2, "q", "p", a, b1), 1)
         == (Done, OneAccount(a, b0, b1, [LowPoint(b0), HighPoint(b1)]))
    ensures Matched(Twice(a, b0, b1), OneAccount(a, b0, b1, [LowPoint(b0), HighPoint(b1)]))
  {
    var accs, b := OneAccount(a, b0, b1, [LowPoint(b0)]), Lists(2, "q", "p", a, b1);
    PushesOne(accs, b, b.accounts[0]);
    assert [LowPoint(b0)] + [HighPoint(b1)] == [LowPoint(b0), HighPoint(b1)];
    assert PushAll(accs, b, 1).1 == OneAccount(a, b0, b1, [LowPoint(b0), HighPoint(b1)]);
    OnceIsReached(a, b0, b1, b0);
    InsertKeepsMatchedExactly([Nothing(), Lists(1, "p", "g", a, b0)], accs, b);
    assert [Nothing(), Lists(1, "p", "g", a, b0)] + [b] == Twice(a, b0, b1);
  }

  /** An account listed at rising heights by two snapshots above the fork point keeps both its
      points when they are unlocked, and stays locked at height 1 by snapshots that are gone. */
  lemma TwoPointsStay(a: Addr, b0: AccBlock, b1: AccBlock)
    requires Two(b0, b1)
    ensures var accs := OneAccount(a, b0, b1, [LowPoint(b0), HighPoint(b1)]);
            && Matched(Twice(a, b0, b1), accs)
            && Bounds(Twice(a, b0, b1), 1, map[a := HighPoint(b1)], map[a := LowPoint(b0)])
            && Unlocked(accs[a], HighPoint(b1), LowPoint(b0)) == (Done, accs[a])
            && !Matched([Nothing()], accs)
  {
    var accs, snaps := OneAccount(a, b0, b1, [LowPoint(b0), HighPoint(b1)]), Twice(a, b0, b1);
    TwiceIsReached(a, b0, b1);
    var start, end: Marks := map[a := HighPoint(b1)], map[a := LowPoint(b0)];
    forall c ensures BoundsAt(snaps, 1, start, end, c) { PointsOfTwo(a, b0, b1, c); }
    assert !MatchedAt([Nothing()], accs, a);
  }

  lemma PointsOfTwo(a: Addr, b0: AccBlock, b1: AccBlock, c: Addr)
    ensures PointsOf(Twice(a, b0, b1), c, 1, 3) == if c == a then [LowPoint(b0), HighPoint(b1)] else []
  {
    var snaps := Twice(a, b0, b1);
    assert PointsOf(snaps, c, 1, 1) == [];
    assert PointsOf(snaps, c, 1, 2) == PointIn(snaps[1], c);
    assert PointsOf(snaps, c, 1, 3) == PointsOf(snaps, c, 1, 2) + PointIn(snaps[2], c);
  }

  /** With the fork point at the head nothing is removed from the disk, and yet the point of the head
      is taken off: the block it names is no longer locked, though the snapshot still stands. */
  lemma HeadIsUnlockedToo(a: Addr, b0: AccBlock, b1: AccBlock)
    requires Two(b0, b1)
    ensures var snaps, accs := [Nothing(), Lists(1, "p", "g", a, b1)], OneAccount(a, b0, b1, [LowPoint(b1)]);
            && Matched(snaps, accs) && LowestTaken(snaps, 1) == 1
            && Bounds(snaps, 1, map[a := LowPoint(b1)], map[a := LowPoint(b1)])
            && Unlocked(accs[a], LowPoint(b1), LowPoint(b1)) == (Done, accs[a].(points := []))
            && Locked(accs[a].points, 1) && !Locked([], 1) && !Matched(snaps, OneAccount(a, b0, b1, []))
  {
    var snaps, accs := [Nothing(), Lists(1, "p", "g", a, b1)], OneAccount(a, b0, b1, [LowPoint(b1)]);
    OnceIsReached(a, b0, b1, b1);
    var marks: Marks := map[a := LowPoint(b1)];
    forall c
      ensures PointsOf(snaps, c, 1, 2) == (if c == a then [LowPoint(b1)] else []) && BoundsAt(snaps, 1, marks, marks, c)
    {
      assert PointsOf(snaps, c, 1, 1) == [];
    }
    assert !MatchedAt(snaps, OneAccount(a, b0, b1, []), a);
  }

  /** Where only a genesis that lists the account is stored, its point is asked to be taken off and was
      never put on: every fork stops at the refusal. */
  lemma GenesisStopsForks(a: Addr, b0: AccBlock, b1: AccBlock, fork: nat)
    requires Two(b0, b1)
    ensures var snaps, accs, p := [Lists(0, "g", "", a, b0)], OneAccount(a, b0, b1, []), Point(0, "g", 0, b0.hash);
            && Matched(snaps, accs) && LowestTaken(snaps, fork) == 0 && Bounds(snaps, 0, map[a := p], map[a := p])
            && Unlocked(accs[a], p, p).0 == Refused
  {
    var snaps, p := [Lists(0, "g", "", a, b0)], Point(0, "g", 0, b0.hash);
    var marks: Marks := map[a := p];
    forall c
      ensures MatchedAt(snaps, OneAccount(a, b0, b1, []), c) && BoundsAt(snaps, 0, marks, marks, c)
    {
      assert PointsOf(snaps, c, 0, 0) == [];
      assert PointsOf(snaps, c, 0, 1) == PointIn(snaps[0], c);
    }
  }

  /** A snapshot that lists the account below its lock verifies, as the block listed is stored; it
      is kept in error. */
  lemma VerifiedBelowLock(a: Addr, b0: AccBlock, b1: AccBlock)
    requires Two(b0, b1)
    ensures var accs, b := OneAccount(a, b0, b1, [LowPoint(b1)]), Lists(2, "q", "p", a, b0);
            && Matched([Nothing(), Lists(1, "p", "g", a, b1)], accs)
            && (forall h | h in b.accounts :: ResultOf(accs, h) == SUCCESS)
            && AnswerOf(PushAll(accs, b, |b.accounts|).0) == KeptInError
  {
    var accs, b := OneAccount(a, b0, b1, [LowPoint(b1)]), Lists(2, "q", "p", a, b0);
    OnceIsReached(a, b0, b1, b1);
    PushesOne(accs, b, b.accounts[0]);
  }
}
