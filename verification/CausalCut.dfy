/** Cutting every account back to a snapshot height, as a snapshot fork asks for. */
module CausalCut {
  import opened Blocks
  import opened Accounts
  import opened Conservation

  /** `findAccountAboveSnapshotHeight`: from block n - 1 down, the first block that refers to a
      snapshot no higher than `s`. */
  function CutPoint(c: seq<AccBlock>, n: nat, s: int): (k: Option<nat>)
    requires n <= |c|
    ensures k.Some? ==> k.value < n
  {
    if n == 0 then None
    else if c[n - 1].snapshotHeight <= s then Some(n - 1)
    else CutPoint(c, n - 1, s)
  }

  /** The ledger with every account rolled back to its cut point. */
  function Cut(l: Ledger, s: int): Ledger {
    map a | a in l && CutPoint(l[a], |l[a]|, s).Some? :: l[a][..CutPoint(l[a], |l[a]|, s).value + 1]
  }

  lemma {:induction false} SnapshotsNeverFall(l: Ledger, a: Addr, i: nat, j: nat)
    requires LedgerOk(l) && a in l && i <= j < |l[a]|
    ensures l[a][i].snapshotHeight <= l[a][j].snapshotHeight
    decreases j
  {
    if i < j {
      assert BlockOk(l, a, j);
      SnapshotsNeverFall(l, a, i, j - 1);
    }
  }

  lemma {:induction false} CutPointSplits(l: Ledger, a: Addr, n: nat, s: int, i: nat)
    requires LedgerOk(l) && a in l && i < n <= |l[a]|
    ensures var k := CutPoint(l[a], n, s);
            l[a][i].snapshotHeight <= s <==> k.Some? && i <= k.value
    decreases n
  {
    if l[a][n - 1].snapshotHeight <= s {
      SnapshotsNeverFall(l, a, i, n - 1);
    } else if i < n - 1 {
      CutPointSplits(l, a, n - 1, s, i);
    }
  }

  /** The search finds a block exactly when the account was opened no higher than `s`; otherwise
      the caller dereferences nil. */
  lemma CutPointExists(l: Ledger, a: Addr, s: int)
    requires LedgerOk(l) && a in l
    ensures CutPoint(l[a], |l[a]|, s).Some? <==> l[a][0].snapshotHeight <= s
  {
    CutPointSplits(l, a, |l[a]|, s, 0);
  }

  /** The cut removes exactly the blocks that refer to a snapshot above `s`. */
  lemma CutIsExact(l: Ledger, s: int, a: Addr, i: nat)
    requires LedgerOk(l) && a in l && i < |l[a]|
    ensures ByHeight(Cut(l, s), a, i) == if l[a][i].snapshotHeight <= s then Some(l[a][i]) else None
  {
    CutPointSplits(l, a, |l[a]|, s, i);
  }

  lemma CutIsPrefix(l: Ledger, s: int, a: Addr, i: nat)
    requires a in Cut(l, s) && i < |Cut(l, s)[a]|
    ensures a in l && i < |l[a]| && Cut(l, s)[a][i] == l[a][i]
  {
  }

  /** No receive is left whose send was removed. */
  lemma CutKeepsSources(l: Ledger, s: int, a: Addr, i: nat)
    requires LedgerOk(l) && a in Cut(l, s) && i < |Cut(l, s)[a]| && Cut(l, s)[a][i].kind.Received?
    ensures Names(Cut(l, s), Cut(l, s)[a][i])
  {
    CutIsPrefix(l, s, a, i);
    var r := l[a][i];
    assert BlockOk(l, a, i);
    CutIsExact(l, s, a, i);
    CutIsExact(l, s, r.from, r.sourceHeight);
  }

  /** What is left is again a well-formed ledger. */
  lemma CutIsOk(l: Ledger, s: int)
    requires LedgerOk(l)
    ensures LedgerOk(Cut(l, s)) && (ReceivedOnce(l) ==> ReceivedOnce(Cut(l, s)))
  {
    var c := Cut(l, s);
    forall a, i | a in c && 0 <= i < |c[a]|
      ensures BlockOk(c, a, i) && c[a][i] == l[a][i]
    {
      CutIsPrefix(l, s, a, i);
      assert BlockOk(l, a, i);
      if c[a][i].kind.Received? { CutKeepsSources(l, s, a, i); }
    }
    forall a, i | a in c && 0 <= i < |c[a]|
      ensures a in l && i < |l[a]| && c[a][i] == l[a][i]
    {
      CutIsPrefix(l, s, a, i);
    }
  }

  /** So a cut conserves money too: nothing that was opened no higher than `s` is lost. */
  lemma CutConserves(l: Ledger, s: int)
    requires LedgerOk(l) && ReceivedOnce(l)
    requires forall a | a in l && l[a][0].kind.Genesis? :: l[a][0].snapshotHeight <= s
    ensures LedgerOk(Cut(l, s)) && HeadTotal(Cut(l, s)) + InFlight(Cut(l, s)) == Opened(l)
  {
    var c := Cut(l, s);
    CutIsOk(l, s);
    MoneyIsConserved(c);
    assert Accounted(l, l.Keys) && Accounted(c, c.Keys) && c.Keys <= l.Keys;
    forall a | a in c ensures Base(c, a) == Base(l, a) { CutIsPrefix(l, s, a, 0); }
    BaseSumKept(l, c, c.Keys);
    forall a | a in l.Keys - c.Keys
      ensures Base(l, a) == 0
    {
      CutPointExists(l, a, s);
      assert BlockOk(l, a, 0);
    }
    DroppedOpenedNothing(l, c.Keys, l.Keys);
  }

  lemma {:induction false} DroppedOpenedNothing(l: Ledger, kept: set<Addr>, all: set<Addr>)
    requires Accounted(l, all) && kept <= all && forall a | a in all - kept :: Base(l, a) == 0
    ensures BaseSum(l, kept) == BaseSum(l, all)
    decreases |all|
  {
    if all - kept == {} {
      assert kept == all;
    } else {
      var a :| a in all - kept;
      BaseSumLess(l, all, a);
      DroppedOpenedNothing(l, kept, all - {a});
    }
  }
}
