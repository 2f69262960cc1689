/** The verdict on a snapshot block, and what it does and does not promise about inserting it. */
module SnapshotVerifiers {
  import opened Blocks
  import opened Accounts
  import opened Stores
  import opened AccountChains
  import opened SnapshotLocks

  predicate IsStored(accs: Accs, h: AccountHashH) {
    h.addr in accs && 0 <= h.height < |accs[h.addr].chain|
  }

  /** The listed block is the stored one. */
  predicate Agrees(accs: Accs, h: AccountHashH) {
    IsStored(accs, h) && accs[h.addr].chain[h.height].hash == h.hash
  }

  /** Another block is stored where it should be. */
  predicate Differs(accs: Accs, h: AccountHashH) {
    IsStored(accs, h) && accs[h.addr].chain[h.height].hash != h.hash
  }

  /** The verdict on one listed account. */
  function ResultOf(accs: Accs, h: AccountHashH): Verdict {
    var chain := AccOf(accs, h.addr).chain;
    if !(0 <= h.height < |chain|) then PENDING
    else if chain[h.height].hash == h.hash then SUCCESS else FAIL
  }

  /** Success where the listed block is stored, failure where another is, and waiting where none is. */
  lemma ResultExactly(accs: Accs, h: AccountHashH)
    ensures ResultOf(accs, h) == SUCCESS <==> Agrees(accs, h)
    ensures ResultOf(accs, h) == FAIL <==> Differs(accs, h)
    ensures ResultOf(accs, h) == PENDING <==> !IsStored(accs, h)
  {
  }

  ghost predicate SaysOf(accs: Accs, h: AccountHashH, v: Verdict) {
    (v == SUCCESS <==> Agrees(accs, h)) && (v == FAIL <==> Differs(accs, h)) && (v == PENDING <==> !IsStored(accs, h))
  }

  /** What the results say of an account is what its last entry comes to. */
  ghost predicate SaysAt(accs: Accs, hs: seq<AccountHashH>, results: map<Addr, Verdict>, a: Addr) {
    match Entry(hs, a)
    case None => a !in results
    case Some(h) => a in results && SaysOf(accs, h, results[a])
  }

  ghost predicate Says(accs: Accs, hs: seq<AccountHashH>, results: map<Addr, Verdict>) {
    forall a {:trigger SaysAt(accs, hs, results, a)} :: SaysAt(accs, hs, results, a)
  }

  lemma SaysMore(accs: Accs, hs: seq<AccountHashH>, results: map<Addr, Verdict>, h: AccountHashH)
    requires Says(accs, hs, results)
    ensures Says(accs, hs + [h], results[h.addr := ResultOf(accs, h)])
  {
    ResultExactly(accs, h);
    var all, more := hs + [h], results[h.addr := ResultOf(accs, h)];
    assert all[..|hs|] == hs;
    forall a
      ensures SaysAt(accs, all, more, a)
    {
      assert SaysAt(accs, hs, results, a);
    }
  }

  /** The first listed block that differs from the stored one is the last looked at. */
  ghost predicate StopsAt(accs: Accs, b: SnapBlock, k: int, results: map<Addr, Verdict>) {
    && 0 <= k < |b.accounts| && Differs(accs, b.accounts[k])
    && (forall j | 0 <= j < k :: !Differs(accs, b.accounts[j])) && Says(accs, b.accounts[..k + 1], results)
  }

  /** `VerifyReferred`: all listed blocks must be stored; one that differs from what is stored fails
      the block at once; a missing one makes it wait. */
  method VerifyReferred(accs: Accs, b: SnapBlock) returns (verdict: Verdict, results: map<Addr, Verdict>)
    ensures verdict == SUCCESS <==> forall h | h in b.accounts :: Agrees(accs, h)
    ensures verdict == FAIL <==> exists h :: h in b.accounts && Differs(accs, h)
    ensures verdict == PENDING <==> (forall h | h in b.accounts :: !Differs(accs, h)) && exists h :: h in b.accounts && !IsStored(accs, h)
    ensures verdict == FAIL ==> exists k :: StopsAt(accs, b, k, results)
    ensures verdict != FAIL ==> Says(accs, b.accounts, results)
  {
    verdict, results := PENDING, map[];
    var i := 0;
    for k := 0 to |b.accounts|
      invariant i <= k && (i == k <==> forall j | 0 <= j < k :: Agrees(accs, b.accounts[j]))
      invariant forall j | 0 <= j < k :: !Differs(accs, b.accounts[j])
      invariant Says(accs, b.accounts[..k], results)
    {
      var v := b.accounts[k];
      ResultExactly(accs, v);
      SaysMore(accs, b.accounts[..k], results, v);
      assert b.accounts[..k] + [v] == b.accounts[..k + 1];
      var chain := AccOf(accs, v.addr).chain;
      if !(0 <= v.height < |chain|) {
        results := results[v.addr := PENDING];
      } else if chain[v.height].hash == v.hash {
        i := i + 1;
        results := results[v.addr := SUCCESS];
      } else {
        results := results[v.addr := FAIL];
        FoundDiffering(accs, b, k, results);
        return FAIL, results;
      }
    }
    assert b.accounts[..|b.accounts|] == b.accounts;
    NoneDiffers(accs, b, i == |b.accounts|);
    if i == |b.accounts| {
      verdict := SUCCESS;
    }
  }

  lemma FoundDiffering(accs: Accs, b: SnapBlock, k: int, results: map<Addr, Verdict>)
    requires StopsAt(accs, b, k, results)
    ensures exists h :: h in b.accounts && Differs(accs, h)
    ensures exists h :: h in b.accounts && !Agrees(accs, h)
    ensures exists i :: StopsAt(accs, b, i, results)
  {
    assert b.accounts[k] in b.accounts && !Agrees(accs, b.accounts[k]);
  }

  lemma NoneDiffers(accs: Accs, b: SnapBlock, all: bool)
    requires forall j | 0 <= j < |b.accounts| :: !Differs(accs, b.accounts[j])
    requires all <==> forall j | 0 <= j < |b.accounts| :: Agrees(accs, b.accounts[j])
    ensures forall h | h in b.accounts :: !Differs(accs, h)
    ensures all <==> forall h | h in b.accounts :: Agrees(accs, h)
    ensures !all <==> exists h :: h in b.accounts && !IsStored(accs, h)
  {
    if !all {
      var j :| 0 <= j < |b.accounts| && !Agrees(accs, b.accounts[j]);
      assert b.accounts[j] in b.accounts && !IsStored(accs, b.accounts[j]);
    }
  }

  /** What the pool is told of an insertion that does not panic: an error leaves the block stored. */
  function AnswerOf(o: Outcome): StoreAnswer {
    if o.Done? then TakenIn else KeptInError
  }

  /** Pushing the points of blocks that are stored dereferences nothing that is not there. */
  lemma {:induction false} VerifiedNeverCrashes(accs: Accs, b: SnapBlock, k: nat)
    requires k <= |b.accounts| && forall h | h in b.accounts :: ResultOf(accs, h) == SUCCESS
    ensures !PushAll(accs, b, k).0.Crashed?
    ensures forall a :: AccOf(PushAll(accs, b, k).1, a).chain == AccOf(accs, a).chain
  {
    if k > 0 {
      VerifiedNeverCrashes(accs, b, k - 1);
      assert b.accounts[k - 1] in b.accounts;
    }
  }

  /** A snapshot block that verifies is taken in exactly when it lists no account twice and none
      below its topmost lock. The verifier asks for neither; where one is missing the block is kept
      in error: stored as the new head, while the pool is told that it failed and the accounts'
      stacks no longer match the stored snapshots. */
  lemma VerifiedIsAcceptedExactly(snaps: seq<SnapBlock>, accs: Accs, b: SnapBlock)
    requires Matched(snaps, accs) && b.height == |snaps|
    requires forall a {:trigger Sound(accs, a)} :: Sound(accs, a)
    requires forall h | h in b.accounts :: ResultOf(accs, h) == SUCCESS
    ensures var (o, accs') := PushAll(accs, b, |b.accounts|);
            && !o.Crashed?
            && (AnswerOf(o).TakenIn? <==>
                  DistinctAddrs(b.accounts) && forall h | h in b.accounts :: h.height >= LockHeight(AccOf(accs, h.addr)))
            && (AnswerOf(o).KeptInError? <==> !Matched(snaps + [b], accs'))
  {
    VerifiedNeverCrashes(accs, b, |b.accounts|);
    InsertKeepsMatchedExactly(snaps, accs, b);
    forall h | h in b.accounts
      ensures Accepted(accs, b, h) <==> h.height >= LockHeight(AccOf(accs, h.addr))
    {
      assert Sound(accs, h.addr) && MatchedAt(snaps, accs, h.addr);
      VerifiedFits(snaps, accs, b, h);
    }
    if PushAll(accs, b, |b.accounts|).0.Done? {
      PushedAll(accs, b, |b.accounts|);
      assert b.accounts[..|b.accounts|] == b.accounts;
    }
    if DistinctAddrs(b.accounts) {
      PushedIfEachAccepted(accs, b, |b.accounts|);
      assert forall i | 0 <= i < |b.accounts| :: b.accounts[i] in b.accounts;
    }
  }

  lemma VerifiedFits(snaps: seq<SnapBlock>, accs: Accs, b: SnapBlock, h: AccountHashH)
    requires SnapsOk(snaps) && b.height == |snaps| && Sound(accs, h.addr) && MatchedAt(snaps, accs, h.addr)
    requires ResultOf(accs, h) == SUCCESS
    ensures Accepted(accs, b, h) <==> h.height >= LockHeight(AccOf(accs, h.addr))
  {
    PointsBelow(snaps, h.addr, 1, |snaps|);
    var s := AccOf(accs, h.addr);
    assert Top(s.points).Some? ==> Top(s.points).value in s.points;
  }
}
