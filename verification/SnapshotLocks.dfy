/** Snapshots lock accounts: inserting a snapshot block pushes a point on every account it lists, and
    a snapshot fork first takes the points above the fork point off again. */
module SnapshotLocks {
  import opened Blocks
  import opened Accounts
  import opened Stores
  import opened AccountChains
  import SnapshotChains

  type Accs = map<Addr, Acc>

  type Marks = map<Addr, Point>

  function AccOf(accs: Accs, a: Addr): Acc {
    if a in accs then accs[a] else Acc([], None, [])
  }

  /** What the block says about the account; the last word counts. */
  function Entry(hs: seq<AccountHashH>, a: Addr): (r: Option<AccountHashH>)
    ensures r.Some? ==> r.value in hs && r.value.addr == a
    ensures r.None? ==> forall h | h in hs :: h.addr != a
  {
    if hs == [] then None
    else if hs[|hs| - 1].addr == a then Some(hs[|hs| - 1]) else Entry(hs[..|hs| - 1], a)
  }

  function PointAt(b: SnapBlock, h: AccountHashH): Point {
    PointFor(b.height, b.hash, h)
  }

  function PointIn(b: SnapBlock, a: Addr): seq<Point> {
    match Entry(b.accounts, a)
    case None => []
    case Some(h) => [PointAt(b, h)]
  }

  /** The points that the snapshot blocks lo .. n - 1 make for the account. */
  function PointsOf(snaps: seq<SnapBlock>, a: Addr, lo: nat, n: nat): seq<Point>
    requires n <= |snaps|
  {
    if n <= lo then [] else PointsOf(snaps, a, lo, n - 1) + PointIn(snaps[n - 1], a)
  }

  ghost predicate DistinctAddrs(hs: seq<AccountHashH>) {
    forall i, j | 0 <= i < j < |hs| :: hs[i].addr != hs[j].addr
  }

  ghost predicate SnapsOk(snaps: seq<SnapBlock>) {
    forall i | 0 <= i < |snaps| :: snaps[i].height == i && DistinctAddrs(snaps[i].accounts)
  }

  /** Every account's stack is what the stored snapshots make, genesis excepted: it is stored
      without pushing points. */
  ghost predicate Matched(snaps: seq<SnapBlock>, accs: Accs) {
    && SnapsOk(snaps) && snaps != []
    && forall a {:trigger MatchedAt(snaps, accs, a)} :: MatchedAt(snaps, accs, a)
  }

  ghost predicate MatchedAt(snaps: seq<SnapBlock>, accs: Accs, a: Addr) {
    AccOf(accs, a).points == PointsOf(snaps, a, 1, |snaps|) && Ascending(AccOf(accs, a).points)
  }

  // ---------------------------------------------------------------- inserting a snapshot block

  /** The first k points of `InsertSnapshotBlock`, until one is not accepted. */
  function PushAll(accs: Accs, b: SnapBlock, k: nat): (Outcome, Accs)
    requires k <= |b.accounts|
  {
    if k == 0 then (Done, accs)
    else
      var (o, m) := PushAll(accs, b, k - 1);
      if !o.Done? then (o, m)
      else
        var h := b.accounts[k - 1];
        var s := AccOf(m, h.addr);
        (PushOutcome(s, b.height, h), m[h.addr := Push(s, b.height, b.hash, h)])
  }

  /** `InsertSnapshotBlock`: the block is stored, whatever becomes of its points; then they are pushed
      one after the other, up to the first that is not accepted. */
  method InsertSnapshotBlock(sc: SnapshotChains.SnapshotChain, accs: Accs, b: SnapBlock) returns (r: Outcome, accs': Accs)
    requires sc.Valid()
    modifies sc, sc.store
    ensures sc.chain == old(sc.chain) + [b] && sc.head == Some(b)
    ensures sc.Valid() <==> SnapshotChains.Fits(old(sc.chain), b)
    ensures (r, accs') == PushAll(accs, b, |b.accounts|)
  {
    sc.InsertChain(b);
    r, accs' := Done, accs;
    for k := 0 to |b.accounts|
      invariant (r, accs') == PushAll(accs, b, k)
    {
      if r.Done? {
        var h := b.accounts[k];
        var s := AccOf(accs', h.addr);
        r, accs' := PushOutcome(s, b.height, h), accs'[h.addr := Push(s, b.height, b.hash, h)];
      }
    }
  }

  /** When all points are accepted, no address was listed twice and each listed account got its
      point. */
  lemma {:induction false} PushedAll(accs: Accs, b: SnapBlock, k: nat)
    requires k <= |b.accounts| && PushAll(accs, b, k).0.Done?
    ensures DistinctAddrs(b.accounts[..k])
    ensures forall a ::
              AccOf(PushAll(accs, b, k).1, a)
              == match Entry(b.accounts[..k], a)
                 case None => AccOf(accs, a)
                 case Some(h) => Push(AccOf(accs, a), b.height, b.hash, h)
    ensures forall a | Entry(b.accounts[..k], a).Some? ::
              PushOutcome(AccOf(accs, a), b.height, Entry(b.accounts[..k], a).value).Done?
  {
    if k > 0 {
      PushedAll(accs, b, k - 1);
      var hs, h := b.accounts[..k - 1], b.accounts[k - 1];
      assert b.accounts[..k] == hs + [h];
      assert (hs + [h])[..k - 1] == hs;
      forall i | 0 <= i < k - 1
        ensures b.accounts[i].addr != h.addr
      {
        assert hs[i] in hs;
      }
    }
  }

  /** An account once the first k points are pushed. */
  function WithPoint(accs: Accs, b: SnapBlock, k: nat, a: Addr): Acc
    requires k <= |b.accounts|
  {
    match Entry(b.accounts[..k], a)
    case None => AccOf(accs, a)
    case Some(h) => Push(AccOf(accs, a), b.height, b.hash, h)
  }

  /** The k-th point is the first not accepted; those before it stay pushed, those after it are not
      looked at. */
  ghost predicate StoppedAt(accs: Accs, b: SnapBlock, k: nat, o: Outcome, accs': Accs) {
    && k < |b.accounts| && DistinctAddrs(b.accounts[..k])
    && (forall j | 0 <= j < k :: PushOutcome(AccOf(accs, b.accounts[j].addr), b.height, b.accounts[j]).Done?)
    && !o.Done? && o == PushOutcome(WithPoint(accs, b, k, b.accounts[k].addr), b.height, b.accounts[k])
    && forall a :: AccOf(accs', a) == WithPoint(accs, b, k, a)
  }

  lemma {:induction false} PushStopsAtFirst(accs: Accs, b: SnapBlock, n: nat)
    requires n <= |b.accounts| && !PushAll(accs, b, n).0.Done?
    ensures exists k: nat :: k < n && StoppedAt(accs, b, k, PushAll(accs, b, n).0, PushAll(accs, b, n).1)
  {
    var k := n - 1;
    if PushAll(accs, b, k).0.Done? {
      NextIsRefused(accs, b, k);
    } else {
      PushStopsAtFirst(accs, b, k);
    }
  }

  lemma NextIsRefused(accs: Accs, b: SnapBlock, k: nat)
    requires k < |b.accounts| && PushAll(accs, b, k).0.Done? && !PushAll(accs, b, k + 1).0.Done?
    ensures StoppedAt(accs, b, k, PushAll(accs, b, k + 1).0, PushAll(accs, b, k + 1).1)
  {
    PushedAll(accs, b, k);
    EachPushed(accs, b, k);
  }

  lemma EachPushed(accs: Accs, b: SnapBlock, k: nat)
    requires k <= |b.accounts| && PushAll(accs, b, k).0.Done?
    ensures forall j | 0 <= j < k :: PushOutcome(AccOf(accs, b.accounts[j].addr), b.height, b.accounts[j]).Done?
  {
    PushedAll(accs, b, k);
    forall j | 0 <= j < k
      ensures PushOutcome(AccOf(accs, b.accounts[j].addr), b.height, b.accounts[j]).Done?
    {
      EntryIsLast(b.accounts[..k], j);
    }
  }

  /** An account whose point is not accepted keeps the stack it had. */
  lemma {:induction false} RefusedKeepsPoints(accs: Accs, b: SnapBlock, k: nat)
    requires k <= |b.accounts| && DistinctAddrs(b.accounts) && !PushAll(accs, b, k).0.Done?
    ensures exists i :: 0 <= i < k && AccOf(PushAll(accs, b, k).1, b.accounts[i].addr) == AccOf(accs, b.accounts[i].addr)
  {
    if PushAll(accs, b, k - 1).0.Done? {
      PushedIfEachAccepted(accs, b, k - 1);
      var h := b.accounts[k - 1];
      assert AccOf(PushAll(accs, b, k).1, h.addr) == AccOf(accs, h.addr);
    } else {
      RefusedKeepsPoints(accs, b, k - 1);
    }
  }

  /** The last entry of an account counts. */
  lemma {:induction false} EntryIsLast(hs: seq<AccountHashH>, i: nat)
    requires i < |hs| && forall j | i < j < |hs| :: hs[j].addr != hs[i].addr
    ensures Entry(hs, hs[i].addr) == Some(hs[i])
  {
    if i < |hs| - 1 { EntryIsLast(hs[..|hs| - 1], i); }
  }

  /** A stored snapshot block keeps every account's stack what the snapshots make exactly when all
      its points were accepted. */
  lemma InsertKeepsMatchedExactly(snaps: seq<SnapBlock>, accs: Accs, b: SnapBlock)
    requires Matched(snaps, accs) && b.height == |snaps|
    ensures Matched(snaps + [b], PushAll(accs, b, |b.accounts|).1) <==> PushAll(accs, b, |b.accounts|).0.Done?
  {
    if PushAll(accs, b, |b.accounts|).0.Done? {
      InsertKeepsMatched(snaps, accs, b);
    } else {
      RefusalBreaksMatched(snaps, accs, b);
    }
  }

  lemma {:induction false} RefusalBreaksMatched(snaps: seq<SnapBlock>, accs: Accs, b: SnapBlock)
    requires Matched(snaps, accs) && b.height == |snaps| && !PushAll(accs, b, |b.accounts|).0.Done?
    ensures !Matched(snaps + [b], PushAll(accs, b, |b.accounts|).1)
  {
    if DistinctAddrs(b.accounts) {
      RefusedKeepsPoints(accs, b, |b.accounts|);
      var accs' := PushAll(accs, b, |b.accounts|).1;
      var i :| 0 <= i < |b.accounts| && AccOf(accs', b.accounts[i].addr) == AccOf(accs, b.accounts[i].addr);
      assert MatchedAt(snaps, accs, b.accounts[i].addr);
      UnpushedIsUnmatched(snaps, accs, b, accs', i);
    } else {
      assert (snaps + [b])[|snaps|] == b;
      assert !SnapsOk(snaps + [b]);
    }
  }

  /** A listed account with the stack it had before the block does not match it. */
  lemma {:induction false} UnpushedIsUnmatched(snaps: seq<SnapBlock>, accs: Accs, b: SnapBlock, accs': Accs, i: nat)
    requires i < |b.accounts| && DistinctAddrs(b.accounts) && snaps != []
    requires MatchedAt(snaps, accs, b.accounts[i].addr) && AccOf(accs', b.accounts[i].addr) == AccOf(accs, b.accounts[i].addr)
    ensures !MatchedAt(snaps + [b], accs', b.accounts[i].addr)
  {
    var a := b.accounts[i].addr;
    EntryIsLast(b.accounts, i);
    PointsOfPrefix(snaps, [b], a, 1, |snaps|);
    assert (snaps + [b])[|snaps|] == b;
    assert |PointsOf(snaps + [b], a, 1, |snaps| + 1)| == |PointsOf(snaps, a, 1, |snaps|)| + 1;
  }

  lemma {:induction false} InsertKeepsMatched(snaps: seq<SnapBlock>, accs: Accs, b: SnapBlock)
    requires Matched(snaps, accs) && b.height == |snaps| && PushAll(accs, b, |b.accounts|).0.Done?
    ensures Matched(snaps + [b], PushAll(accs, b, |b.accounts|).1)
  {
    forall a
      ensures MatchedAt(snaps + [b], PushAll(accs, b, |b.accounts|).1, a)
    {
      assert MatchedAt(snaps, accs, a);
      InsertMatchesAt(snaps, accs, b, a);
    }
    PushedAt(accs, b, "");
    SnapsStayOk(snaps, b);
  }

  lemma SnapsStayOk(snaps: seq<SnapBlock>, b: SnapBlock)
    requires SnapsOk(snaps) && b.height == |snaps| && DistinctAddrs(b.accounts)
    ensures SnapsOk(snaps + [b])
  {
  }

  lemma {:induction false} InsertMatchesAt(snaps: seq<SnapBlock>, accs: Accs, b: SnapBlock, a: Addr)
    requires MatchedAt(snaps, accs, a) && snaps != [] && b.height == |snaps| && PushAll(accs, b, |b.accounts|).0.Done?
    ensures MatchedAt(snaps + [b], PushAll(accs, b, |b.accounts|).1, a)
  {
    PushedAt(accs, b, a);
    PointsOfPrefix(snaps, [b], a, 1, |snaps|);
    assert (snaps + [b])[|snaps|] == b;
    var e := Entry(b.accounts, a);
    if e.Some? { AscendingPush(AccOf(accs, a), b.height, b.hash, e.value); }
  }

  lemma PushedAt(accs: Accs, b: SnapBlock, a: Addr)
    requires PushAll(accs, b, |b.accounts|).0.Done?
    ensures DistinctAddrs(b.accounts)
    ensures var s, s' := AccOf(accs, a), AccOf(PushAll(accs, b, |b.accounts|).1, a);
            match Entry(b.accounts, a)
            case None => s' == s
            case Some(h) => PushOutcome(s, b.height, h).Done? && s' == Push(s, b.height, b.hash, h)
  {
    PushedAll(accs, b, |b.accounts|);
    assert b.accounts[..|b.accounts|] == b.accounts;
  }

  lemma AscendingPush(s: Acc, sh: int, shash: Hash, h: AccountHashH)
    requires Ascending(s.points) && PushOutcome(s, sh, h).Done?
    ensures Ascending(Push(s, sh, shash, h).points)
  {
    var t := |s.points| - 1;
    assert forall i | 0 <= i < t ::
        s.points[i].snapshotHeight < s.points[t].snapshotHeight && s.points[i].accountHeight <= s.points[t].accountHeight;
  }

  lemma {:induction false} PointsOfPrefix(snaps: seq<SnapBlock>, more: seq<SnapBlock>, a: Addr, lo: nat, n: nat)
    requires n <= |snaps|
    ensures PointsOf(snaps + more, a, lo, n) == PointsOf(snaps, a, lo, n)
  {
    if n > lo { PointsOfPrefix(snaps, more, a, lo, n - 1); }
  }

  lemma {:induction false} PointsOfSplits(snaps: seq<SnapBlock>, a: Addr, lo: nat, mid: nat, n: nat)
    requires lo <= mid <= n <= |snaps|
    ensures PointsOf(snaps, a, lo, n) == PointsOf(snaps, a, lo, mid) + PointsOf(snaps, a, mid, n)
  {
    if n > mid {
      PointsOfSplits(snaps, a, lo, mid, n - 1);
    }
  }

  // ---------------------------------------------------------------- what a miner offers is accepted

  /** The accounts list is what `NextAccountSnapshot` collects: an offer of each listed account. */
  ghost predicate Offered(accs: Accs, hs: seq<AccountHashH>) {
    && DistinctAddrs(hs)
    && forall h | h in hs :: NextPoint(AccOf(accs, h.addr), h.addr) == Some(h)
  }

  /** What the account is listed with: its head, if that lies above its topmost lock. */
  ghost predicate Listed(accs: Accs, h: AccountHashH) {
    && h.addr in accs && accs[h.addr].head.Some? && accs[h.addr].head.value.height >= 0
    && h.height == accs[h.addr].head.value.height && h.hash == accs[h.addr].head.value.hash
    && var points := accs[h.addr].points; points != [] ==> points[|points| - 1].accountHeight < h.height
  }

  lemma ListedIsOffered(accs: Accs, a: Addr)
    requires a in accs
    ensures forall h: AccountHashH | h.addr == a :: Listed(accs, h) <==> NextPoint(accs[a], a) == Some(h) && h.height >= 0
  {
    OfferExactly(accs[a], a);
  }

  /** `NextAccountSnapshot`, over the accounts in any order: an account is listed exactly when its head
      lies above its topmost lock, and then with its head. It dereferences nil exactly when some account
      has a lock and no head. */
  method NextAccountSnapshot(accs: Accs) returns (hs: seq<AccountHashH>, crashed: bool)
    ensures crashed <==> exists a :: a in accs && Headless(accs[a])
    ensures !crashed ==> DistinctAddrs(hs) && (forall h :: h in hs <==> Listed(accs, h)) && Offered(accs, hs)
  {
    hs, crashed := [], false;
    var left := accs.Keys;
    while left != {} && !crashed
      invariant left <= accs.Keys && DistinctAddrs(hs)
      invariant if crashed then exists a :: a in accs && Headless(accs[a]) else forall a | a in accs && a !in left :: !Headless(accs[a])
      invariant forall h :: h in hs <==> h.addr !in left && Listed(accs, h)
      decreases !crashed, |left|
    {
      var a :| a in left;
      crashed := Headless(accs[a]);
      if !crashed {
        hs := ListOne(accs, hs, left, a);
        left := left - {a};
      }
    }
    forall h | h in hs ensures NextPoint(AccOf(accs, h.addr), h.addr) == Some(h) { ListedIsOffered(accs, h.addr); }
  }

  method ListOne(accs: Accs, before: seq<AccountHashH>, ghost left: set<Addr>, a: Addr) returns (hs: seq<AccountHashH>)
    requires a in left && left <= accs.Keys && DistinctAddrs(before) && forall h :: h in before <==> h.addr !in left && Listed(accs, h)
    ensures DistinctAddrs(hs) && forall h :: h in hs <==> h.addr !in left - {a} && Listed(accs, h)
  {
    hs := before;
    ListedIsOffered(accs, a);
    var r := NextPoint(accs[a], a);
    if r.Some? && r.value.height >= 0 {
      forall i | 0 <= i < |hs| ensures hs[i].addr != r.value.addr { assert hs[i] in hs; }
      hs := hs + [r.value];
    }
  }

  /** Once a mined block has been accepted no account has anything left to list. */
  lemma MinedTakesAll(accs: Accs, b: SnapBlock, h: AccountHashH)
    requires DistinctAddrs(b.accounts) && (forall g :: g in b.accounts <==> Listed(accs, g))
    requires PushAll(accs, b, |b.accounts|).0.Done?
    ensures !Listed(PushAll(accs, b, |b.accounts|).1, h)
  {
    var accs', a := PushAll(accs, b, |b.accounts|).1, h.addr;
    PushedAll(accs, b, |b.accounts|);
    assert b.accounts[..|b.accounts|] == b.accounts;
    if Listed(accs', h) {
      var e := Entry(b.accounts, a);
      assert AccOf(accs', a) == accs'[a];
      if e.Some? {
        ListedIsOffered(accs, a);
        PushedOfferIsTaken(AccOf(accs, a), a, b.height, b.hash);
        ListedIsOffered(accs', a);
      } else {
        assert AccOf(accs, a) == accs'[a];
        assert Listed(accs, h);
      }
    }
  }

  ghost predicate Sound(accs: Accs, a: Addr) {
    var s := AccOf(accs, a);
    && LocksOk(s)
    && (s.head.Some? ==> s.head.value.height >= 0 && (!Stale(s) ==> s.head.value == s.chain[s.head.value.height]))
  }

  ghost predicate Accepted(accs: Accs, b: SnapBlock, h: AccountHashH) {
    PushOutcome(AccOf(accs, h.addr), b.height, h).Done?
  }

  /** Points of different accounts do not get in each other's way. */
  lemma {:induction false} PushedIfEachAccepted(accs: Accs, b: SnapBlock, k: nat)
    requires DistinctAddrs(b.accounts) && k <= |b.accounts|
    ensures PushAll(accs, b, k).0.Done? <==> forall i | 0 <= i < k :: Accepted(accs, b, b.accounts[i])
    ensures forall i | k <= i < |b.accounts| ::
              AccOf(PushAll(accs, b, k).1, b.accounts[i].addr) == AccOf(accs, b.accounts[i].addr)
  {
    if k > 0 {
      PushedIfEachAccepted(accs, b, k - 1);
      assert b.accounts[k - 1].addr == b.accounts[k - 1].addr;
    }
  }

  /** A snapshot block built from the accounts' own offers is accepted exactly when none of the
      accounts it lists has a stale head. */
  lemma MinedSnapshotIsAcceptedExactly(snaps: seq<SnapBlock>, accs: Accs, b: SnapBlock)
    requires Matched(snaps, accs) && b.height == |snaps| && Offered(accs, b.accounts)
    requires forall a {:trigger Sound(accs, a)} :: Sound(accs, a)
    ensures PushAll(accs, b, |b.accounts|).0.Done? <==> forall h | h in b.accounts :: !Stale(AccOf(accs, h.addr))
  {
    PushedIfEachAccepted(accs, b, |b.accounts|);
    forall h | h in b.accounts
      ensures Accepted(accs, b, h) <==> !Stale(AccOf(accs, h.addr))
    {
      assert Sound(accs, h.addr) && MatchedAt(snaps, accs, h.addr);
      OfferFits(snaps, accs, b, h);
    }
  }

  lemma OfferFits(snaps: seq<SnapBlock>, accs: Accs, b: SnapBlock, h: AccountHashH)
    requires SnapsOk(snaps) && b.height == |snaps| && Sound(accs, h.addr) && MatchedAt(snaps, accs, h.addr)
    requires NextPoint(AccOf(accs, h.addr), h.addr) == Some(h)
    ensures PushOutcome(AccOf(accs, h.addr), b.height, h) == if Stale(AccOf(accs, h.addr)) then Crashed else Done
  {
    var s := AccOf(accs, h.addr);
    PointsBelow(snaps, h.addr, 1, |snaps|);
    assert Top(s.points).Some? ==> Top(s.points).value in s.points;
    OfferIsAcceptedExactly(s, h.addr, b.height);
  }

  lemma {:induction false} PointsBelow(snaps: seq<SnapBlock>, a: Addr, lo: nat, n: nat)
    requires SnapsOk(snaps) && n <= |snaps|
    ensures forall p | p in PointsOf(snaps, a, lo, n) :: lo <= p.snapshotHeight < n
  {
    if n > lo { PointsBelow(snaps, a, lo, n - 1); }
  }

  // ---------------------------------------------------------------- what a fork unlocks

  ghost predicate Bounds(snaps: seq<SnapBlock>, lo: nat, start: Marks, end: Marks) {
    start.Keys == end.Keys && forall a {:trigger BoundsAt(snaps, lo, start, end, a)} :: BoundsAt(snaps, lo, start, end, a)
  }

  ghost predicate BoundsAt(snaps: seq<SnapBlock>, lo: nat, start: Marks, end: Marks, a: Addr) {
    var ps := PointsOf(snaps, a, lo, |snaps|);
    && (a in start <==> ps != []) && (a in end <==> ps != [])
    && (ps != [] ==> start[a] == ps[|ps| - 1] && end[a] == ps[0])
  }

  /** What recording a block does to the marks of one account. */
  ghost predicate RecordedAt(start: Marks, end: Marks, ps: seq<Point>, start': Marks, end': Marks, a: Addr) {
    && (a in start' <==> a in start || ps != []) && (a in end' <==> a in end || ps != [])
    && (a in start' ==> start'[a] == if a in start then start[a] else ps[0])
    && (a in end' ==> end'[a] == if ps != [] then ps[0] else end[a])
  }

  ghost predicate Recorded(start: Marks, end: Marks, b: SnapBlock, start': Marks, end': Marks) {
    forall a {:trigger RecordedAt(start, end, PointIn(b, a), start', end', a)} ::
      RecordedAt(start, end, PointIn(b, a), start', end', a)
  }

  /** `accounts`: the first point seen for an account is its start, the last its end. */
  method RecordAccounts(start: Marks, end: Marks, b: SnapBlock) returns (start': Marks, end': Marks)
    requires DistinctAddrs(b.accounts)
    ensures Recorded(start, end, b, start', end')
  {
    start', end' := start, end;
    for k := 0 to |b.accounts|
      invariant Recorded(start, end, b.(accounts := b.accounts[..k]), start', end')
    {
      var v := b.accounts[k];
      var point := Point(b.height, b.hash, v.height, v.hash);
      ghost var start0, end0 := start', end';
      if v.addr !in start' {
        start' := start'[v.addr := point];
      }
      end' := end'[v.addr := point];
      RecordOne(start, end, b, k, start0, end0, start', end');
    }
    assert b.(accounts := b.accounts[..|b.accounts|]) == b;
  }

  lemma RecordOne(start: Marks, end: Marks, b: SnapBlock, k: nat, start0: Marks, end0: Marks, start': Marks, end': Marks)
    requires DistinctAddrs(b.accounts) && k < |b.accounts|
    requires Recorded(start, end, b.(accounts := b.accounts[..k]), start0, end0)
    requires var v := b.accounts[k];
             && start' == (if v.addr in start0 then start0 else start0[v.addr := PointAt(b, v)])
             && end' == end0[v.addr := PointAt(b, v)]
    ensures Recorded(start, end, b.(accounts := b.accounts[..k + 1]), start', end')
  {
    var before, after, v := b.(accounts := b.accounts[..k]), b.(accounts := b.accounts[..k + 1]), b.accounts[k];
    assert after.accounts[..k] == before.accounts;
    forall a
      ensures RecordedAt(start, end, PointIn(after, a), start', end', a)
    {
      assert RecordedAt(start, end, PointIn(before, a), start0, end0, a);
      assert a != v.addr ==> PointIn(after, a) == PointIn(before, a);
      assert PointIn(before, v.addr) == [] && PointIn(after, v.addr) == [PointAt(b, v)];
    }
  }

  /** `getUnlockAccountSnapshot`: per account the highest and the lowest point above the fork. The
      head is looked at whether or not it is above. */
  method GetUnlockAccountSnapshot(snaps: seq<SnapBlock>, fork: nat) returns (start: Marks, end: Marks)
    requires SnapsOk(snaps) && snaps != []
    ensures Bounds(snaps, LowestTaken(snaps, fork), start, end)
  {
    var head := |snaps| - 1;
    start, end := RecordAccounts(map[], map[], snaps[head]);
    BoundsAtHead(snaps, start, end);
    var i := head - 1;
    while i > fork
      invariant Min(fork, head - 1) <= i < head && Bounds(snaps, i + 1, start, end)
    {
      ghost var start0, end0 := start, end;
      start, end := RecordAccounts(start, end, snaps[i]);
      BoundsGrow(snaps, i, start0, end0, start, end);
      i := i - 1;
    }
  }

  lemma BoundsAtHead(snaps: seq<SnapBlock>, start: Marks, end: Marks)
    requires snaps != [] && Recorded(map[], map[], snaps[|snaps| - 1], start, end)
    ensures Bounds(snaps, |snaps| - 1, start, end)
  {
    var lo := |snaps| - 1;
    forall a {:trigger BoundsAt(snaps, lo, start, end, a)}
      ensures BoundsAt(snaps, lo, start, end, a)
    {
      assert RecordedAt(map[], map[], PointIn(snaps[|snaps| - 1], a), start, end, a);
    }
    SameKeys(snaps, lo, start, end);
  }

  lemma SameKeys(snaps: seq<SnapBlock>, lo: nat, start: Marks, end: Marks)
    requires forall a {:trigger BoundsAt(snaps, lo, start, end, a)} :: BoundsAt(snaps, lo, start, end, a)
    ensures start.Keys == end.Keys
  {
    forall a ensures a in start <==> a in end { assert BoundsAt(snaps, lo, start, end, a); }
  }

  lemma BoundsGrow(snaps: seq<SnapBlock>, i: nat, start: Marks, end: Marks, start': Marks, end': Marks)
    requires i < |snaps| && Bounds(snaps, i + 1, start, end) && Recorded(start, end, snaps[i], start', end')
    ensures Bounds(snaps, i, start', end')
  {
    forall a {:trigger BoundsAt(snaps, i, start', end', a)}
      ensures BoundsAt(snaps, i, start', end', a)
    {
      BoundsGrowAt(snaps, i, start, end, start', end', a);
    }
    SameKeys(snaps, i, start', end');
  }

  lemma BoundsGrowAt(snaps: seq<SnapBlock>, i: nat, start: Marks, end: Marks, start': Marks, end': Marks, a: Addr)
    requires i < |snaps| && BoundsAt(snaps, i + 1, start, end, a) && RecordedAt(start, end, PointIn(snaps[i], a), start', end', a)
    ensures BoundsAt(snaps, i, start', end', a)
  {
    PointsOfSplits(snaps, a, i, i + 1, |snaps|);
    assert PointsOf(snaps, a, i, i + 1) == PointIn(snaps[i], a);
  }

  function Unlocked(s: Acc, start: Point, end: Point): (Outcome, Acc) {
    var r := RollbackPoints(s.points, start, end);
    (r.0, s.(points := r.1))
  }

  ghost predicate AllUnlocked(accs: Accs, start: Marks, end: Marks, accs': Accs)
    requires start.Keys <= end.Keys
  {
    forall a {:trigger UnlockedAt(accs, start, end, accs', a)} :: UnlockedAt(accs, start, end, accs', a)
  }

  ghost predicate UnlockedAt(accs: Accs, start: Marks, end: Marks, accs': Accs, a: Addr)
    requires start.Keys <= end.Keys
  {
    AccOf(accs', a) == if a in start then Unlocked(AccOf(accs, a), start[a], end[a]).1 else AccOf(accs, a)
  }

  /** `UnLockAccounts`: in any order, until one is refused. */
  method UnLockAccounts(accs: Accs, start: Marks, end: Marks) returns (ok: bool, accs': Accs)
    requires start.Keys <= end.Keys
    ensures ok <==> forall a | a in start :: Unlocked(AccOf(accs, a), start[a], end[a]).0.Done?
    ensures ok ==> AllUnlocked(accs, start, end, accs')
    ensures forall a :: AccOf(accs', a) == AccOf(accs, a) || (a in start && AccOf(accs', a) == Unlocked(AccOf(accs, a), start[a], end[a]).1)
  {
    ok, accs' := true, accs;
    var left := start.Keys;
    while left != {} && ok
      invariant left <= start.Keys
      invariant ok ==> forall a | a in start.Keys - left :: Unlocked(AccOf(accs, a), start[a], end[a]).0.Done?
      invariant !ok ==> exists a :: a in start && !Unlocked(AccOf(accs, a), start[a], end[a]).0.Done?
      invariant forall a ::
                  AccOf(accs', a) == if a in start.Keys - left then Unlocked(AccOf(accs, a), start[a], end[a]).1 else AccOf(accs, a)
      decreases |left|
    {
      var k :| k in left;
      var r := Unlocked(AccOf(accs', k), start[k], end[k]);
      ok, accs' := r.0.Done?, accs'[k := r.1];
      left := left - {k};
    }
  }

  // ---------------------------------------------------------------- exactly when it unlocks enough

  /** The lowest snapshot whose points a fork takes off: the one above the fork point, but never one
      above the head, which is looked at in any case. */
  function LowestTaken(snaps: seq<SnapBlock>, fork: nat): nat
    requires snaps != []
  {
    Min(fork + 1, |snaps| - 1)
  }

  /** Once there is a snapshot besides genesis, the start of every account is the top of its stack, so
      no unlock is refused. */
  lemma StartIsTop(snaps: seq<SnapBlock>, accs: Accs, lo: nat, start: Marks, end: Marks, a: Addr)
    requires MatchedAt(snaps, accs, a) && 1 <= lo < |snaps| && BoundsAt(snaps, lo, start, end, a) && a in start
    ensures var points, below := AccOf(accs, a).points, PointsOf(snaps, a, 1, lo);
            && |below| < |points| && points[..|below|] == below
            && a in end && start[a] == points[|points| - 1] && end[a] == points[|below|]
  {
    TakenAbove(snaps, lo, start, end, a);
    PointsOfSplits(snaps, a, 1, lo, |snaps|);
    EndsOf(AccOf(accs, a).points, PointsOf(snaps, a, 1, lo), PointsOf(snaps, a, lo, |snaps|), start[a], end[a]);
  }

  lemma TakenAbove(snaps: seq<SnapBlock>, lo: nat, start: Marks, end: Marks, a: Addr)
    requires lo <= |snaps| && BoundsAt(snaps, lo, start, end, a) && a in start
    ensures var above := PointsOf(snaps, a, lo, |snaps|);
            above != [] && a in end && start[a] == above[|above| - 1] && end[a] == above[0]
  {
  }

  lemma EndsOf(points: seq<Point>, below: seq<Point>, above: seq<Point>, top: Point, low: Point)
    requires points == below + above && above != [] && top == above[|above| - 1] && low == above[0]
    ensures |below| < |points| && points[..|below|] == below && top == points[|points| - 1] && low == points[|below|]
  {
  }

  lemma UnlocksExactly(snaps: seq<SnapBlock>, accs: Accs, lo: nat, start: Marks, end: Marks, a: Addr)
    requires MatchedAt(snaps, accs, a) && 1 <= lo < |snaps| && BoundsAt(snaps, lo, start, end, a) && a in start
    ensures a in end
    ensures var r := Unlocked(AccOf(accs, a), start[a], end[a]);
            r.0.Done? && (r.1.points == PointsOf(snaps[..lo], a, 1, lo) <==> start[a] == end[a])
  {
    StartIsTop(snaps, accs, lo, start, end, a);
    var points, below := AccOf(accs, a).points, PointsOf(snaps, a, 1, lo);
    PointsBefore(snaps, a, lo);
    RollbackPointsExactly(points, |below|);
    if |below| < |points| - 1 {
      assert points[|below|].snapshotHeight < points[|points| - 1].snapshotHeight;
    }
  }

  /** Where only genesis is stored, every unlock is refused: genesis is stored without points. */
  lemma GenesisIsRefused(snaps: seq<SnapBlock>, accs: Accs, start: Marks, end: Marks, a: Addr)
    requires |snaps| == 1 && MatchedAt(snaps, accs, a) && a in start && a in end
    ensures Unlocked(AccOf(accs, a), start[a], end[a]).0.Refused?
  {
    assert PointsOf(snaps, a, 1, 1) == [];
  }

  /** For every fork point. The unlocks all go through exactly when there is a snapshot besides genesis,
      or genesis lists no account. After them, and the removal of the snapshots above the fork point,
      the stacks are what the remaining snapshots make exactly when every account met had one point
      above the fork point, and the fork point lies below the head. Otherwise some account keeps a
      lock that no snapshot stands for, or, where nothing is removed, has lost the head's. */
  lemma ForkKeepsMatchedExactly(snaps: seq<SnapBlock>, accs: Accs, fork: nat, start: Marks, end: Marks, accs': Accs)
    requires Matched(snaps, accs) && Bounds(snaps, LowestTaken(snaps, fork), start, end)
    requires start.Keys <= end.Keys && AllUnlocked(accs, start, end, accs')
    ensures (forall a | a in start :: Unlocked(AccOf(accs, a), start[a], end[a]).0.Done?)
       <==> |snaps| > 1 || start == map[]
    ensures |snaps| > 1 || start == map[] ==>
              (Matched(snaps[..Min(fork + 1, |snaps|)], accs')
               <==> forall a | a in start :: fork < |snaps| - 1 && start[a] == end[a])
  {
    UnlocksGoThrough(snaps, accs, LowestTaken(snaps, fork), start, end);
    var rest := snaps[..Min(fork + 1, |snaps|)];
    if |snaps| > 1 || start == map[] {
      forall a
        ensures MatchedAt(rest, accs', a) <==> (a in start ==> fork < |snaps| - 1 && start[a] == end[a])
      {
        assert MatchedAt(snaps, accs, a) && BoundsAt(snaps, LowestTaken(snaps, fork), start, end, a);
        assert UnlockedAt(accs, start, end, accs', a);
        ForkMatchesAt(snaps, accs, fork, start, end, accs', a);
      }
      if Matched(rest, accs') {
        forall a | a in start ensures fork < |snaps| - 1 && start[a] == end[a] { assert MatchedAt(rest, accs', a); }
      }
    }
  }

  lemma UnlocksGoThrough(snaps: seq<SnapBlock>, accs: Accs, lo: nat, start: Marks, end: Marks)
    requires Matched(snaps, accs) && lo < |snaps| && (lo == 0 ==> |snaps| == 1) && Bounds(snaps, lo, start, end)
    requires start.Keys <= end.Keys
    ensures (forall a | a in start :: Unlocked(AccOf(accs, a), start[a], end[a]).0.Done?)
       <==> |snaps| > 1 || start == map[]
  {
    forall a | a in start
      ensures Unlocked(AccOf(accs, a), start[a], end[a]).0.Done? <==> |snaps| > 1
    {
      assert MatchedAt(snaps, accs, a) && BoundsAt(snaps, lo, start, end, a);
      if |snaps| > 1 {
        UnlocksExactly(snaps, accs, lo, start, end, a);
      } else {
        GenesisIsRefused(snaps, accs, start, end, a);
      }
    }
    if start != map[] {
      var a :| a in start;
    }
  }

  lemma ForkMatchesAt(snaps: seq<SnapBlock>, accs: Accs, fork: nat, start: Marks, end: Marks, accs': Accs, a: Addr)
    requires MatchedAt(snaps, accs, a) && snaps != [] && BoundsAt(snaps, LowestTaken(snaps, fork), start, end, a)
    requires start.Keys <= end.Keys && UnlockedAt(accs, start, end, accs', a) && (|snaps| > 1 || a !in start)
    ensures MatchedAt(snaps[..Min(fork + 1, |snaps|)], accs', a)
       <==> (a in start ==> fork < |snaps| - 1 && start[a] == end[a])
  {
    var lo := LowestTaken(snaps, fork);
    if a in start {
      UnlocksExactly(snaps, accs, lo, start, end, a);
      PopToIsPrefix(AccOf(accs, a).points, end[a]);
      if fork >= |snaps| - 1 {
        assert lo == |snaps| - 1;
        HeadIsUnlocked(snaps, accs, start, end, a);
        NoneRemoved(snaps, fork);
      }
    } else if fork < |snaps| - 1 {
      NothingAbove(snaps, a, fork);
    } else {
      NoneRemoved(snaps, fork);
    }
  }

  lemma NoneRemoved(snaps: seq<SnapBlock>, fork: nat)
    requires fork >= |snaps| - 1
    ensures snaps[..Min(fork + 1, |snaps|)] == snaps
  {
  }

  /** With the fork point at the head or above, an account the head lists loses the head's point. */
  lemma HeadIsUnlocked(snaps: seq<SnapBlock>, accs: Accs, start: Marks, end: Marks, a: Addr)
    requires MatchedAt(snaps, accs, a) && |snaps| > 1 && BoundsAt(snaps, |snaps| - 1, start, end, a) && a in start
    ensures a in end && start[a] == end[a]
    ensures Unlocked(AccOf(accs, a), start[a], end[a]).1.points != PointsOf(snaps, a, 1, |snaps|)
  {
    var n := |snaps|;
    assert PointsOf(snaps, a, n - 1, n) == PointIn(snaps[n - 1], a);
    UnlocksExactly(snaps, accs, n - 1, start, end, a);
    PointsOfSplits(snaps, a, 1, n - 1, n);
    PointsBefore(snaps, a, n - 1);
  }

  lemma PointsBefore(snaps: seq<SnapBlock>, a: Addr, n: nat)
    requires 1 <= n <= |snaps|
    ensures PointsOf(snaps[..n], a, 1, n) == PointsOf(snaps, a, 1, n)
  {
    PointsOfPrefix(snaps[..n], snaps[n..], a, 1, n);
    assert snaps[..n] + snaps[n..] == snaps;
  }

  lemma NothingAbove(snaps: seq<SnapBlock>, a: Addr, fork: nat)
    requires fork < |snaps| && PointsOf(snaps, a, fork + 1, |snaps|) == []
    ensures PointsOf(snaps[..fork + 1], a, 1, fork + 1) == PointsOf(snaps, a, 1, |snaps|)
  {
    PointsOfSplits(snaps, a, 1, fork + 1, |snaps|);
    PointsBefore(snaps, a, fork + 1);
  }
}
