/** The verdict on an account block, told from the ledger: when it fails, when it waits and when it
    succeeds. */
module AccountVerdicts {
  import opened Blocks
  import opened Accounts
  import opened Conservation

  predicate HasBlocks(l: Ledger, a: Addr) {
    a in l && |l[a]| > 0
  }

  /** A receive at height 0 has to open its account, with what it receives. */
  predicate OpensWrongly(l: Ledger, b: AccBlock) {
    HasBlocks(l, b.signer) || b.preHash != "" || b.modified != b.amount
  }

  /** Any other block has to follow its signer's top. */
  predicate FollowsWrongly(l: Ledger, b: AccBlock) {
    !HasBlocks(l, b.signer) ||
    (var top := l[b.signer][|l[b.signer]| - 1];
     || b.preHash != top.hash || b.snapshotHeight < top.snapshotHeight
     || (b.kind.Send? && b.modified > 0) || (b.kind.Received? && b.modified < 0)
     || b.amount != top.amount + b.modified || b.amount <= 0)
  }

  /** The account named as receiver has received the source, above height 0. */
  ghost predicate ReceivedThere(l: Ledger, b: AccBlock) {
    b.to in l && exists i :: 1 <= i < |l[b.to]| && IsReceiveOf(l[b.to][i], b.sourceHash)
  }

  predicate SourceStored(l: Ledger, b: AccBlock) {
    b.from in l && 0 <= b.sourceHeight < |l[b.from]|
  }

  /** The block stored where the source should be is another, or does not match what is received. */
  predicate SourceDiffers(l: Ledger, b: AccBlock) {
    SourceStored(l, b) &&
    (var s := l[b.from][b.sourceHeight];
     s.hash != b.sourceHash || s.snapshotHeight > b.snapshotHeight || s.modified != -b.modified)
  }

  ghost predicate Fails(l: Ledger, b: AccBlock, opening: set<(Hash, int)>) {
    if b.kind.Genesis? then (b.hash, b.height) !in opening
    else if b.kind.Received? then
      || (if b.height == 0 then OpensWrongly(l, b) else FollowsWrongly(l, b) || ReceivedThere(l, b))
      || SourceDiffers(l, b)
    else FollowsWrongly(l, b)
  }

  ghost predicate Waits(l: Ledger, b: AccBlock, known: bool) {
    !b.kind.Genesis? && (!known || (b.kind.Received? && !SourceStored(l, b)))
  }

  lemma SelfExactly(l: Ledger, b: AccBlock)
    ensures VerifySelf(l, b) != PENDING
    ensures VerifySelf(l, b) == FAIL
       <==> if b.kind.Received? && b.height == 0 then OpensWrongly(l, b)
            else FollowsWrongly(l, b) || (b.kind.Received? && ReceivedThere(l, b))
  {
    if b.kind.Received? && b.to in l { BySourceFinds(l[b.to], |l[b.to]|, b.sourceHash); }
  }

  lemma FromExactly(l: Ledger, b: AccBlock)
    ensures CheckFromAmount(l, b) == FAIL <==> SourceDiffers(l, b)
    ensures CheckFromAmount(l, b) == PENDING <==> !SourceStored(l, b)
  {
  }

  /** A block fails exactly when it breaks a rule against its signer's top, or differs from a source
      that is stored, or its source was received before where that is looked for. It waits exactly
      when it does not fail, and the snapshot it refers to or its source is not stored. */
  lemma VerdictExactly(l: Ledger, b: AccBlock, opening: set<(Hash, int)>, known: bool)
    ensures Verify(l, b, opening, known) == FAIL <==> Fails(l, b, opening)
    ensures Verify(l, b, opening, known) == PENDING <==> !Fails(l, b, opening) && Waits(l, b, known)
    ensures Verify(l, b, opening, known) == SUCCESS <==> !Fails(l, b, opening) && !Waits(l, b, known)
  {
    SelfExactly(l, b);
    FromExactly(l, b);
  }

  /** A receive that opens an account before its send has arrived waits for it. */
  lemma EarlyReceiveWaits()
    ensures Verify(GenesisLedger("h", "k"), FirstReceive(), {}, true) == PENDING
  {
    assert VITESHAN[0] == 'v' && JIE[0] == 'j' && CAROL[0] == 'c';
    VerdictExactly(GenesisLedger("h", "k"), FirstReceive(), {}, true);
  }
}
