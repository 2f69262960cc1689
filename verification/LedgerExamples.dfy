/** A run after which a verified block receives a second time what its signer has received. */
module LedgerExamples {
  import opened Blocks
  import opened Accounts
  import opened Conservation
  import opened RollbackSets
  import Requests

  /** jie receives once more what it received at height 1, naming carol as the receiver. */
  function Misnamed(): AccBlock {
    AccBlock(2, "z", "r", JIE, 260, 30, 0, "g", Received, VITESHAN, CAROL, "s", 1)
  }

  /** What makes a receive good that names as its receiver an account with no blocks. */
  lemma GoodMisnamed(l: Ledger, b: AccBlock, head: AccBlock, s: AccBlock, i: int)
    requires b.to !in l && b.signer in l && Head(l, b.signer) == Some(head) && NewHash(l, b.hash)
    requires b.kind.Received? && b.preHash == head.hash && b.height == head.height + 1 && b.height != 0
    requires head.snapshotHeight <= b.snapshotHeight && b.modified >= 0 && head.amount + b.modified == b.amount > 0
    requires ByHeight(l, b.from, b.sourceHeight) == Some(s) && s.kind.Send? && s.to == b.signer && s.hash == b.sourceHash
    requires s.snapshotHeight <= b.snapshotHeight && s.modified + b.modified == 0
    requires 0 <= i < |l[b.signer]| && IsReceiveOf(l[b.signer][i], b.sourceHash)
    ensures Candidate(l, b) && Fitting(l, b) && Verify(l, b, {}, true) == SUCCESS && Overlooked(l, b) && Hides(l, b, i)
  {
    assert Hides(l, b, i) by { assert b.to != b.signer; }
  }

  lemma MisnamedIsVerified()
    ensures var l := PongedUpTo(2);
            && Candidate(l, Misnamed()) && Verify(l, Misnamed(), {}, true) == SUCCESS && Hides(l, Misnamed(), 1)
  {
    Different();
    assert CAROL[0] == 'c' && VITESHAN[0] == 'v' && JIE[0] == 'j' && "z"[0] == 'z';
    assert "h"[0] == 'h' && "k"[0] == 'k' && "s"[0] == 's' && "r"[0] == 'r';
    GoodMisnamed(PongedUpTo(2), Misnamed(), In(), Out(), 1);
  }

  /** The verifier accepts it: the lookup goes to carol. The send is then received twice, although
      the earlier receive is above height 0, and the balances and the money in flight grow by 30. */
  lemma MisnamedReceiveIsAccepted()
    ensures var l, b := PongedUpTo(2), Misnamed();
            && GoodRun(PongRun(2)) && After(PongRun(2)) == l && LedgerOk(l) && ReceivedOnce(l)
            && Verify(l, b, {}, true) == SUCCESS && Fitting(l, b) && Hides(l, b, 1)
            && LedgerOk(Insert(l, b)) && !ReceivedOnce(Insert(l, b))
            && HeadTotal(Insert(l, b)) + InFlight(Insert(l, b)) == HeadTotal(l) + InFlight(l) + 30
  {
    var l, b := PongedUpTo(2), Misnamed();
    PongRunIsGood(2);
    RunKeepsOk(PongRun(2));
    MisnamedIsVerified();
    SuccessIsVerified(l, b, {}, true);
    InsertKeepsOnceExactly(l, b);
    InsertAdds(l, b);
  }

  /** In a node that keeps the request index the callback then looks for a request of carol's, after
      the block has been stored, and dereferences nil. */
  lemma MisnamedReceiveCrashesTheIndex()
    ensures var hist := Requests.Next(Requests.Next(Requests.Empty, Requests.Inserted(Out())), Requests.Inserted(In()));
            && Requests.Legal(hist) && Requests.WorldOf(hist).Some?
            && Requests.Possible(Requests.WorldOf(hist).value, Requests.Inserted(Misnamed()))
            && Requests.WorldOf(Requests.Next(hist, Requests.Inserted(Misnamed()))).None?
  {
    Different();
    assert CAROL[0] == 'c' && JIE[0] == 'j' && "z"[0] == 'z' && "s"[0] == 's' && "r"[0] == 'r';
    IndexCrashes(Out(), In(), Misnamed());
  }

  lemma IndexCrashes(s: AccBlock, r: AccBlock, b: AccBlock)
    requires s.kind.Send? && IsReceiveOf(r, s.hash) && r.to == s.to && r.hash != s.hash
    requires IsReceiveOf(b, s.hash) && b.to != s.to && b.hash != s.hash && b.hash != r.hash
    ensures var hist := Requests.Next(Requests.Next(Requests.Empty, Requests.Inserted(s)), Requests.Inserted(r));
            && Requests.Legal(hist) && Requests.WorldOf(hist).Some?
            && Requests.Possible(Requests.WorldOf(hist).value, Requests.Inserted(b))
            && Requests.WorldOf(Requests.Next(hist, Requests.Inserted(b))).None?
  {
    var hist, w := Requests.Starts(s, r);
    Requests.HistoryCrashesExactly(hist, Requests.Inserted(b));
  }
}
