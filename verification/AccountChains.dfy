/** One account's chain: its stored blocks, its head, and the stack of snapshot points that lock
    blocks against removal.

    `Acc` is the chain as a value, with the operations as the source performs them; the class ties
    them to the store. Removing a block leaves it as the head, because the new head is looked up by
    the hash of the block removed; `Stale` says so. */
module AccountChains {
  import opened Blocks
  import opened Accounts
  import opened Stores
  import opened CausalCut
  import opened Conservation

  datatype Point = Point(snapshotHeight: int, snapshotHash: Hash, accountHeight: int, accountHash: Hash)

  /** The top of the stack is the last point. */
  datatype Acc = Acc(chain: seq<AccBlock>, head: Option<AccBlock>, points: seq<Point>)

  datatype Outcome = Done | Refused | Crashed

  function Top(points: seq<Point>): Option<Point> {
    if points == [] then None else Some(points[|points| - 1])
  }

  /** `hasSnapshotPoint`. */
  predicate Locked(points: seq<Point>, height: int) {
    Top(points).Some? && Top(points).value.accountHeight >= height
  }

  predicate Stale(s: Acc) {
    s.head.Some? && s.head.value.height >= |s.chain|
  }

  // ---------------------------------------------------------------- the operations on values

  function Append(s: Acc, b: AccBlock): Acc {
    Acc(s.chain + [b], Some(b), s.points)
  }

  /** `removeChain` of the topmost stored block. */
  function RemoveTop(s: Acc): Acc
    requires s.chain != []
  {
    var n := |s.chain| - 1;
    if Locked(s.points, s.chain[n].height) then s else Acc(s.chain[..n], Some(s.chain[n]), s.points)
  }

  /** `SnapshotPoint`: the checks, in order. */
  function PushOutcome(s: Acc, sh: int, h: AccountHashH): Outcome {
    var top := Top(s.points);
    if s.head.None? then Refused
    else if top.Some? && (sh <= top.value.snapshotHeight || h.height < top.value.accountHeight) then Refused
    else if !(0 <= h.height < |s.chain|) then Crashed
    else if s.chain[h.height].hash == h.hash then Done else Refused
  }

  function PointFor(sh: int, shash: Hash, h: AccountHashH): Point {
    Point(sh, shash, h.height, h.hash)
  }

  function Push(s: Acc, sh: int, shash: Hash, h: AccountHashH): Acc {
    if PushOutcome(s, sh, h).Done? then s.(points := s.points + [PointFor(sh, shash, h)]) else s
  }

  /** The popping loop of `RollbackSnapshotPoint`. */
  function PopTo(points: seq<Point>, end: Point): (Outcome, seq<Point>) {
    if points == [] then (Refused, [])
    else
      var top, rest := points[|points| - 1], points[..|points| - 1];
      if top.accountHeight > end.accountHeight then (Done, points)
      else if top.accountHeight == end.accountHeight then (Done, rest)
      else PopTo(rest, end)
  }

  function RollbackPoints(points: seq<Point>, start: Point, end: Point): (Outcome, seq<Point>) {
    if Top(points) != Some(start) then (Refused, points) else PopTo(points, end)
  }

  /** `NextSnapshotPoint`: what the next snapshot block should say about the account. */
  function NextPoint(s: Acc, a: Addr): Option<AccountHashH> {
    if s.head.None? then None
    else if Top(s.points).Some? && Top(s.points).value.accountHeight >= s.head.value.height then None
    else Some(AccountHashH(a, s.head.value.height, s.head.value.hash))
  }

  // ---------------------------------------------------------------- locks

  ghost predicate Numbered(chain: seq<AccBlock>) {
    forall i | 0 <= i < |chain| :: chain[i].height == i
  }

  ghost predicate Ascending(points: seq<Point>) {
    forall i, j | 0 <= i < j < |points| ::
      points[i].snapshotHeight < points[j].snapshotHeight && points[i].accountHeight <= points[j].accountHeight
  }

  /** The point names a stored block. */
  ghost predicate Stands(chain: seq<AccBlock>, p: Point) {
    0 <= p.accountHeight < |chain| && chain[p.accountHeight].hash == p.accountHash
  }

  ghost predicate LocksOk(s: Acc) {
    && Numbered(s.chain) && Ascending(s.points)
    && (forall i | 0 <= i < |s.points| :: Stands(s.chain, s.points[i]))
    && (s.chain != [] ==> s.head.Some?)
  }

  datatype AccOp =
    | OpAppend(block: AccBlock)
    | OpRemove
    | OpPush(sh: int, shash: Hash, h: AccountHashH)
    | OpPop(start: Point, end: Point)

  /** Blocks are appended on top and removed from the top; nothing else is asked of a run. */
  function Step(s: Acc, op: AccOp): Acc {
    match op
    case OpAppend(b) => if b.height == |s.chain| then Append(s, b) else s
    case OpRemove => if s.chain == [] then s else RemoveTop(s)
    case OpPush(sh, shash, h) => Push(s, sh, shash, h)
    case OpPop(start, end) => s.(points := RollbackPoints(s.points, start, end).1)
  }

  lemma {:induction false} PopToIsPrefix(points: seq<Point>, end: Point)
    ensures PopTo(points, end).1 <= points
    decreases |points|
  {
    if points != [] && points[|points| - 1].accountHeight < end.accountHeight {
      PopToIsPrefix(points[..|points| - 1], end);
    }
  }

  lemma RemovalKeepsLocks(s: Acc)
    requires LocksOk(s) && s.chain != []
    ensures LocksOk(RemoveTop(s))
  {
    var c := s.chain[..|s.chain| - 1];
    if !Locked(s.points, |c|) {
      forall i | 0 <= i < |s.points|
        ensures Stands(c, s.points[i])
      {
        assert Stands(s.chain, s.points[i]);
        var t := |s.points| - 1;
        assert i < t ==> s.points[i].accountHeight <= s.points[t].accountHeight;
      }
    }
  }

  lemma AppendKeepsLocks(s: Acc, b: AccBlock)
    requires LocksOk(s) && b.height == |s.chain|
    ensures LocksOk(Append(s, b))
  {
    forall i | 0 <= i < |s.points|
      ensures Stands(s.chain + [b], s.points[i])
    {
      assert Stands(s.chain, s.points[i]);
    }
  }

  /** No operation breaks a lock. */
  lemma StepKeepsLocks(s: Acc, op: AccOp)
    requires LocksOk(s)
    ensures LocksOk(Step(s, op))
  {
    match op
    case OpAppend(b) => if b.height == |s.chain| { AppendKeepsLocks(s, b); }
    case OpRemove => if s.chain != [] { RemovalKeepsLocks(s); }
    case OpPop(start, end) => PopToIsPrefix(s.points, end);
    case OpPush(sh, shash, h) => PushKeepsLocks(s, sh, shash, h);
  }

  lemma PushKeepsLocks(s: Acc, sh: int, shash: Hash, h: AccountHashH)
    requires LocksOk(s)
    ensures LocksOk(Push(s, sh, shash, h))
  {
    if PushOutcome(s, sh, h).Done? {
      var points, t := s.points + [PointFor(sh, shash, h)], |s.points| - 1;
      assert Stands(s.chain, PointFor(sh, shash, h));
      forall i, j | 0 <= i < j < |points|
        ensures points[i].snapshotHeight < points[j].snapshotHeight && points[i].accountHeight <= points[j].accountHeight
      {
        if j == |s.points| {
          assert i < t ==> s.points[i].snapshotHeight < s.points[t].snapshotHeight && s.points[i].accountHeight <= s.points[t].accountHeight;
        }
      }
    }
  }

  function Steps(s: Acc, ops: seq<AccOp>): Acc {
    if ops == [] then s else Step(Steps(s, ops[..|ops| - 1]), ops[|ops| - 1])
  }

  /** Over any run the stack ascends and every point on it names a stored block. */
  lemma {:induction false} EveryRunKeepsLocks(s: Acc, ops: seq<AccOp>)
    requires LocksOk(s)
    ensures LocksOk(Steps(s, ops))
  {
    if ops != [] {
      EveryRunKeepsLocks(s, ops[..|ops| - 1]);
      StepKeepsLocks(Steps(s, ops[..|ops| - 1]), ops[|ops| - 1]);
    }
  }

  ghost predicate Changes(s: Acc, op: AccOp) {
    Step(s, op).chain != s.chain
  }

  /** The head is stale exactly from a removal until the next append. */
  lemma StaleAfterRemoval(s: Acc, op: AccOp)
    requires LocksOk(s)
    ensures Stale(Step(s, op)) <==> if Changes(s, op) then op.OpRemove? else Stale(s)
  {
    match op
    case OpAppend(b) => assert |Step(s, op).chain| != |s.chain| ==> Changes(s, op);
    case OpRemove =>
      if s.chain != [] { assert |s.chain[..|s.chain| - 1]| != |s.chain|; }
    case OpPush(sh, shash, h) =>
    case OpPop(start, end) =>
  }

  /** Snapshot heights never fall. */
  ghost predicate Rising(chain: seq<AccBlock>) {
    forall i, j | 0 <= i < j < |chain| :: chain[i].snapshotHeight <= chain[j].snapshotHeight
  }

  /** The head is the top of the chain, or was above it. */
  ghost predicate HeadAbove(s: Acc) {
    HeadOk(s.chain, s.head) && (s.chain != [] ==> s.chain[|s.chain| - 1].snapshotHeight <= s.head.value.snapshotHeight)
  }

  /** Every operation keeps that, as long as what is appended refers no lower than the top. */
  lemma StepKeepsHeadAbove(s: Acc, op: AccOp)
    requires Numbered(s.chain) && Rising(s.chain) && HeadAbove(s)
    requires op.OpAppend? && s.chain != [] ==> s.chain[|s.chain| - 1].snapshotHeight <= op.block.snapshotHeight
    ensures Rising(Step(s, op).chain) && HeadAbove(Step(s, op))
  {
    if op.OpRemove? && s.chain != [] {
      var n := |s.chain| - 1;
      assert n > 0 ==> s.chain[n - 1].snapshotHeight <= s.chain[n].snapshotHeight;
    }
    if op.OpAppend? && op.block.height == |s.chain| && s.chain != [] {
      var n := |s.chain| - 1;
      assert forall i | 0 <= i < n :: s.chain[i].snapshotHeight <= s.chain[n].snapshotHeight;
    }
  }

  /** So the heads that accounts answer are such as the rollbacks of accounts expect. */
  lemma HeadOfAccount(l: Ledger, heads: Heads, a: Addr, s: Acc)
    requires a in heads && s.head == Some(heads[a]) && HeadAbove(s) && (if s.chain == [] then a !in l else a in l && l[a] == s.chain)
    ensures HeadOf(l, heads, a) && (StaleHead(l, heads, a) <==> Stale(s))
  {
  }

  /** While the head is stale the verifier rejects every block that continues the stored chain, and
      what it accepts one above the head leaves a gap in it. */
  lemma StaleHeadMisleads(s: Acc, b: AccBlock)
    requires Stale(s) && forall i | 0 <= i < |s.chain| :: s.chain[i].hash != s.head.value.hash
    ensures s.chain != [] && b.preHash == s.chain[|s.chain| - 1].hash ==> CheckSelfOn(s.head, b) == FAIL
    ensures CheckSelfOn(s.head, b) == SUCCESS ==>
              b.preHash == s.head.value.hash && (b.height == s.head.value.height + 1 ==> !Extends(s.chain, b))
  {
  }

  /** The removals of a rollback to height n: from the top down, up to the first that is refused. */
  function RemoveDown(s: Acc, n: nat): Acc
    decreases |s.chain|
  {
    if |s.chain| <= n + 1 || Locked(s.points, s.chain[|s.chain| - 1].height) then s else RemoveDown(RemoveTop(s), n)
  }

  function LockHeight(s: Acc): int {
    if Top(s.points).Some? then Top(s.points).value.accountHeight else -1
  }

  /** A rollback stops at n or at the topmost lock, whichever is higher. The head then names the
      height the rollback stopped at exactly when no block was removed, so the check at the end of
      a pool's rollback fails after every real one. */
  lemma {:induction false} RollbackStopsAtLock(s: Acc, n: nat)
    requires LocksOk(s) && |s.chain| > n && s.head == Some(s.chain[|s.chain| - 1])
    ensures var stop := Max(n, LockHeight(s));
            && stop < |s.chain| && RemoveDown(s, n).chain == s.chain[..stop + 1]
            && RemoveDown(s, n).head.Some?
            && (RemoveDown(s, n).head.value.height == stop <==> stop == |s.chain| - 1)
  {
    if Top(s.points).Some? { assert Stands(s.chain, s.points[|s.points| - 1]); }
    RemovedDown(s, n);
  }

  lemma {:induction false} RemovedDown(s: Acc, n: nat)
    requires LocksOk(s) && s.chain != [] && s.head.Some? && Max(n, LockHeight(s)) < |s.chain|
    ensures var stop := Max(n, LockHeight(s));
            RemoveDown(s, n) == if stop == |s.chain| - 1 then s else Acc(s.chain[..stop + 1], Some(s.chain[stop + 1]), s.points)
    decreases |s.chain|
  {
    var stop := Max(n, LockHeight(s));
    if stop < |s.chain| - 1 {
      RemovalKeepsLocks(s);
      var t := RemoveTop(s);
      RemovedDown(t, n);
      assert t.chain[..stop + 1] == s.chain[..stop + 1];
    }
  }

  /** An account offers its head, and does so exactly when that lies above its topmost lock. */
  lemma OfferExactly(s: Acc, a: Addr)
    ensures NextPoint(s, a).Some?
       <==> s.head.Some? && (s.points != [] ==> s.points[|s.points| - 1].accountHeight < s.head.value.height)
    ensures NextPoint(s, a).Some? ==> NextPoint(s, a).value == AccountHashH(a, s.head.value.height, s.head.value.hash)
  {
  }

  /** An account that has lost its head and not its points. */
  predicate Headless(s: Acc) {
    s.points != [] && s.head.None?
  }

  /** Locks on stored blocks rule that out. */
  lemma LocksHaveHead(s: Acc)
    requires LocksOk(s)
    ensures !Headless(s)
  {
    if s.points != [] { assert Stands(s.chain, s.points[0]); }
  }

  /** After any append it offers exactly the block appended. */
  lemma AppendIsOffered(s: Acc, b: AccBlock, a: Addr)
    requires LocksOk(s) && b.height == |s.chain|
    ensures NextPoint(Append(s, b), a) == Some(AccountHashH(a, b.height, b.hash))
  {
    var t := |s.points| - 1;
    assert t >= 0 ==> Stands(s.chain, s.points[t]);
    OfferExactly(Append(s, b), a);
  }

  /** And once the offer has become a point, nothing. */
  lemma PushedOfferIsTaken(s: Acc, a: Addr, sh: int, shash: Hash)
    requires NextPoint(s, a).Some? && PushOutcome(s, sh, NextPoint(s, a).value).Done?
    ensures NextPoint(Push(s, sh, shash, NextPoint(s, a).value), a).None?
  {
    OfferExactly(s, a);
    OfferExactly(Push(s, sh, shash, NextPoint(s, a).value), a);
  }

  /** `SnapshotPoint`, told from head, top and chain. */
  lemma PushExactly(s: Acc, sh: int, h: AccountHashH)
    ensures PushOutcome(s, sh, h) == Done
       <==> && s.head.Some? && 0 <= h.height < |s.chain| && s.chain[h.height].hash == h.hash
            && (s.points != [] ==>
                  var top := s.points[|s.points| - 1]; sh > top.snapshotHeight && h.height >= top.accountHeight)
    ensures PushOutcome(s, sh, h) == Crashed
       <==> && s.head.Some? && !(0 <= h.height < |s.chain|)
            && (s.points != [] ==>
                  var top := s.points[|s.points| - 1]; sh > top.snapshotHeight && h.height >= top.accountHeight)
  {
  }

  /** What an account offers to the next snapshot is accepted there, unless its head is stale: then
      the lookup of the offered block finds nothing and dereferences nil. */
  lemma OfferIsAcceptedExactly(s: Acc, a: Addr, sh: int)
    requires LocksOk(s) && NextPoint(s, a).Some?
    requires s.head.value.height >= 0 && (!Stale(s) ==> s.head.value == s.chain[s.head.value.height])
    requires Top(s.points).Some? ==> sh > Top(s.points).value.snapshotHeight
    ensures PushOutcome(s, sh, NextPoint(s, a).value) == if Stale(s) then Crashed else Done
  {
  }

  /** `RollbackSnapshotPoint`, told from the stack: it is refused exactly when the start is not the top,
      or every point lies below the end, and then all are gone. Otherwise the points below the end are
      gone from the top, and one at its height with them. */
  lemma {:induction false} PoppedExactly(points: seq<Point>, end: Point, n: nat)
    requires n <= |points| && (forall i | n <= i < |points| :: points[i].accountHeight < end.accountHeight)
    requires n > 0 ==> points[n - 1].accountHeight >= end.accountHeight
    ensures PopTo(points, end) ==
            if n == 0 then (Refused, [])
            else (Done, points[..if points[n - 1].accountHeight == end.accountHeight then n - 1 else n])
    decreases |points|
  {
    if n < |points| {
      PoppedExactly(points[..|points| - 1], end, n);
      assert n > 0 ==> points[..|points| - 1][..n] == points[..n] && points[..|points| - 1][..n - 1] == points[..n - 1];
    } else if n > 0 {
      assert points[..n] == points;
    }
  }

  lemma WrongStartIsRefused(points: seq<Point>, start: Point, end: Point)
    ensures points == [] || points[|points| - 1] != start ==> RollbackPoints(points, start, end) == (Refused, points)
    ensures points != [] && points[|points| - 1] == start ==> RollbackPoints(points, start, end) == PopTo(points, end)
  {
  }

  /** Rolling back snapshot points from the top down to a lower one: as written it removes exactly
      those from the lower one up when the two are the same point, and otherwise leaves some. */
  lemma RollbackPointsExactly(points: seq<Point>, e: nat)
    requires Ascending(points) && e < |points|
    ensures var r := RollbackPoints(points, points[|points| - 1], points[e]);
            r.0.Done? && (r.1 == points[..e] <==> e == |points| - 1)
  {
    var t := |points| - 1;
    if e < t {
      assert points[e].accountHeight <= points[t].accountHeight;
      assert |points[..t]| != |points[..e]| && |points| != |points[..e]|;
    }
  }

  // ---------------------------------------------------------------- the class

  /** A hash names one block of the chain. */
  ghost predicate Distinct(chain: seq<AccBlock>) {
    forall i, j | 0 <= i < j < |chain| :: chain[i].hash != chain[j].hash
  }

  /** The two account maps describe the chain. */
  ghost predicate Describe(byHeight: map<string, AccBlock>, byHash: map<Hash, AccBlock>, a: Addr, chain: seq<AccBlock>) {
    HoldsHeights(byHeight, a, chain) && HoldsHashes(byHash, chain) && Numbered(chain) && Distinct(chain)
  }

  /** The head is the top of the chain or lies above it. */
  ghost predicate HeadOk(chain: seq<AccBlock>, head: Option<AccBlock>) {
    && (chain != [] ==> head.Some?) && (head.Some? ==> head.value.height >= 0 && head.value.height >= |chain| - 1)
    && (head.Some? && head.value.height == |chain| - 1 ==> head.value == chain[|chain| - 1])
  }

  /** The block is the next of the chain. */
  ghost predicate Extends(chain: seq<AccBlock>, b: AccBlock) {
    b.height == |chain| && forall i | 0 <= i < |chain| :: chain[i].hash != b.hash
  }

  predicate OnTop(chain: seq<AccBlock>, b: AccBlock) {
    chain != [] && b == chain[|chain| - 1]
  }

  /** With the block put in, the maps describe the longer chain exactly when it is the next. */
  lemma NextExactly(byHeight: map<string, AccBlock>, byHash: map<Hash, AccBlock>, a: Addr, chain: seq<AccBlock>, b: AccBlock)
    requires Describe(byHeight, byHash, a, chain)
    ensures Describe(byHeight[GenKey(a, b.height) := b], byHash[b.hash := b], a, chain + [b]) <==> Extends(chain, b)
    ensures Extends(chain, b) ==> HeadOk(chain + [b], Some(b))
  {
    var n, c := |chain|, chain + [b];
    assert c[n] == b && forall i | 0 <= i < n :: c[i] == chain[i];
    if Extends(chain, b) { PutDescribes(byHeight, byHash, a, chain, b); }
  }

  lemma PutDescribes(byHeight: map<string, AccBlock>, byHash: map<Hash, AccBlock>, a: Addr, chain: seq<AccBlock>, b: AccBlock)
    requires Describe(byHeight, byHash, a, chain) && b.height == |chain|
    requires forall i | 0 <= i < |chain| :: chain[i].hash != b.hash
    ensures Describe(byHeight[GenKey(a, b.height) := b], byHash[b.hash := b], a, chain + [b])
  {
    PutHolds(byHeight, a, chain, b);
  }

  lemma DeleteDescribes(byHeight: map<string, AccBlock>, byHash: map<Hash, AccBlock>, a: Addr, chain: seq<AccBlock>)
    requires Describe(byHeight, byHash, a, chain) && chain != []
    ensures var b := chain[|chain| - 1];
            && Describe(byHeight - {GenKey(a, b.height)}, byHash - {b.hash}, a, chain[..|chain| - 1])
            && b.hash in byHash && byHash[b.hash] == b && HeadOk(chain[..|chain| - 1], Some(b))
  {
    DeleteHolds(byHeight, a, chain);
  }

  class AccountChain {
    const address: Addr
    const store: BlockStore
    var head: Option<AccBlock>
    var points: seq<Point>
    ghost var chain: seq<AccBlock>

    /** The store holds exactly `chain` for the account. */
    ghost predicate Valid()
      reads this, store
    {
      && Describe(store.accountHeight, store.accountHash, address, chain) && HeadOk(chain, head)
      && (head.Some? ==> address in store.head && store.head[address] == HashHeight(head.value.hash, head.value.height))
      && (head.None? ==> address !in store.head)
    }

    ghost function View(): Acc
      reads this
    {
      Acc(chain, head, points)
    }

    /** `newAccountChain`: the head is read back by the height it was saved with; points are not
        kept in the store. */
    constructor (a: Addr, s: BlockStore, ghost stored: seq<AccBlock>)
      requires HoldsHeights(s.accountHeight, a, stored)
      requires a in s.head ==> s.head[a].height >= 0
      ensures address == a && store == s && chain == stored && points == []
      ensures head == if a in s.head && s.head[a].height < |stored| then Some(stored[s.head[a].height]) else None
    {
      address, store, points, chain := a, s, [], stored;
      if a in s.head {
        head := s.GetAccountByHeight(a, s.head[a].height);
      } else {
        head := None;
      }
    }

    /** `insertChain`, which asks nothing of the block and never fails. The maps go on describing one
        chain exactly when the block is the next one, under a hash of its own. */
    method InsertChain(b: AccBlock)
      requires Valid()
      modifies this`head, this`chain, store
      ensures View() == Append(old(View()), b)
      ensures Valid() <==> Extends(old(chain), b)
      ensures store.accountHeight == old(store.accountHeight)[GenKey(address, b.height) := b]
      ensures store.accountHash == old(store.accountHash)[b.hash := b]
      ensures store.sourceHash == if b.kind.Received? then old(store.sourceHash)[b.sourceHash := b] else old(store.sourceHash)
    {
      NextExactly(store.accountHeight, store.accountHash, address, chain, b);
      StoreBlock(b);
      chain := chain + [b];
    }

    method StoreBlock(b: AccBlock)
      modifies this`head, store
      ensures head == Some(b) && store.head == old(store.head)[address := HashHeight(b.hash, b.height)]
      ensures store.accountHeight == old(store.accountHeight)[GenKey(address, b.height) := b]
      ensures store.accountHash == old(store.accountHash)[b.hash := b]
      ensures store.sourceHash == if b.kind.Received? then old(store.sourceHash)[b.sourceHash := b] else old(store.sourceHash)
    {
      store.PutAccount(address, b);
      head := Some(b);
      store.SetHead(address, Some(HashHeight(b.hash, b.height)));
      if b.kind.Received? {
        store.sourceHash := store.sourceHash[b.sourceHash := b];
      }
    }

    /** `removeChain`. Only a point at or above the block's height keeps it from being deleted; the
        head becomes what the hash of the block is looked up as. For the block on top that is the
        block itself. */
    method RemoveChain(b: AccBlock) returns (r: Outcome)
      requires Valid()
      modifies this`head, this`chain, store
      ensures r == if Locked(points, b.height) then Refused else Done
      ensures r.Refused? ==> View() == old(View()) && store.accountHeight == old(store.accountHeight)
                             && store.accountHash == old(store.accountHash) && store.sourceHash == old(store.sourceHash)
      ensures r.Done? ==>
                && head == (if b.hash in old(store.accountHash) then Some(old(store.accountHash)[b.hash]) else None)
                && store.accountHeight == old(store.accountHeight) - {GenKey(address, b.height)}
                && store.accountHash == old(store.accountHash) - {b.hash}
                && store.sourceHash == if b.kind.Received? then old(store.sourceHash) - {b.sourceHash} else old(store.sourceHash)
      ensures OnTop(old(chain), b) ==> Valid() && View() == RemoveTop(old(View())) && (r.Done? ==> Stale(View()))
    {
      if points != [] && points[|points| - 1].accountHeight >= b.height {
        return Refused;
      }
      if OnTop(chain, b) { DeleteDescribes(store.accountHeight, store.accountHash, address, chain); }
      DeleteBlock(b);
      chain := if OnTop(chain, b) then chain[..|chain| - 1] else chain;
      r := Done;
    }

    method DeleteBlock(b: AccBlock)
      modifies this`head, store
      ensures head == if b.hash in old(store.accountHash) then Some(old(store.accountHash)[b.hash]) else None
      ensures head.Some? ==> address in store.head && store.head[address] == HashHeight(head.value.hash, head.value.height)
      ensures head.None? ==> address !in store.head
      ensures store.accountHeight == old(store.accountHeight) - {GenKey(address, b.height)}
      ensures store.accountHash == old(store.accountHash) - {b.hash}
      ensures store.sourceHash == if b.kind.Received? then old(store.sourceHash) - {b.sourceHash} else old(store.sourceHash)
    {
      head := store.GetAccountByHash(b.hash);
      store.DeleteAccount(address, HashHeight(b.hash, b.height));
      store.SetHead(address, if head.None? then None else Some(HashHeight(head.value.hash, head.value.height)));
      if b.kind.Received? {
        store.sourceHash := store.sourceHash - {b.sourceHash};
      }
    }

    /** `GetBlockByHeight`. */
    method GetBlockByHeight(h: int) returns (r: Option<AccBlock>)
      requires Valid()
      ensures r == if 0 <= h < |chain| then Some(chain[h]) else None
    {
      if h < 0 {
        return None;
      }
      store.ReadsChain(address, chain, h);
      r := store.GetAccountByHeight(address, h);
    }

    /** `findAccountAboveSnapshotHeight`: with a stale head the first lookup finds nothing and nil is
        dereferenced. */
    method FindAccountAboveSnapshotHeight(s: int) returns (crashed: bool, r: Option<AccBlock>)
      requires Valid()
      ensures crashed <==> Stale(View())
      ensures !crashed ==>
                var k := CutPoint(chain, |chain|, s);
                r == if k.Some? then Some(chain[k.value]) else None
    {
      crashed, r := false, None;
      if head.None? {
        return;
      }
      var i := head.value.height;
      ghost var stale := Stale(View());
      ghost var k := CutPoint(chain, |chain|, s);
      r := GetBlockByHeight(i);
      while i >= 0 && r.Some? && r.value.snapshotHeight > s
        invariant -1 <= i && (stale <==> i >= |chain|)
        invariant r == (if 0 <= i < |chain| then Some(chain[i]) else None)
        invariant !stale ==> k == CutPoint(chain, i + 1, s)
      {
        i := i - 1;
        r := GetBlockByHeight(i);
      }
      crashed := i >= 0 && r.None?;
    }

    /** `getBySourceBlock`. */
    method GetBySourceBlock(source: Hash) returns (crashed: bool, r: Option<AccBlock>)
      requires Valid()
      ensures crashed <==> Stale(View()) && head.value.height > 0
      ensures !crashed ==>
                var k := BySource(chain, |chain|, source);
                r == if k.Some? then Some(chain[k.value]) else None
    {
      crashed, r := false, None;
      ghost var k := BySource(chain, |chain|, source);
      if head.None? {
        return;
      }
      var i := head.value.height;
      var v := GetBlockByHeight(i);
      while i > 0 && v.Some?
        invariant 0 <= i
        invariant v == if i < |chain| then Some(chain[i]) else None
        invariant !Stale(View()) ==> k == BySource(chain, i + 1, source)
        invariant if Stale(View()) then i == head.value.height else i < |chain|
      {
        if v.value.kind.Received? && v.value.sourceHash == source {
          return false, v;
        }
        i := i - 1;
        v := GetBlockByHeight(i);
      }
      crashed := i > 0;
    }

    /** `NextSnapshotPoint`. With a point and no head nil is dereferenced. */
    method NextSnapshotPoint() returns (r: Option<AccountHashH>, crashed: bool)
      ensures crashed <==> Headless(View())
      ensures !crashed ==> r == NextPoint(View(), address)
      ensures !crashed ==> (r.Some? <==> head.Some? && (points != [] ==> points[|points| - 1].accountHeight < head.value.height))
    {
      r, crashed := None, false;
      if points == [] {
        if head.Some? {
          r := Some(AccountHashH(address, head.value.height, head.value.hash));
        }
      } else if head.None? {
        crashed := true;
      } else if points[|points| - 1].accountHeight < head.value.height {
        r := Some(AccountHashH(address, head.value.height, head.value.hash));
      }
    }

    /** `SnapshotPoint`. */
    method SnapshotPoint(sh: int, shash: Hash, h: AccountHashH) returns (r: Outcome)
      requires Valid()
      modifies this`points
      ensures Valid() && r == PushOutcome(old(View()), sh, h) && View() == Push(old(View()), sh, shash, h)
    {
      if head.None? {
        return Refused;
      }
      if points != [] {
        var last := points[|points| - 1];
        if sh <= last.snapshotHeight || h.height < last.accountHeight {
          return Refused;
        }
      }
      var point := GetBlockByHeight(h.height);
      if point.None? {
        return Crashed;
      }
      if h.hash == point.value.hash && h.height == point.value.height {
        points := points + [Point(sh, shash, h.height, h.hash)];
        r := Done;
      } else {
        r := Refused;
      }
    }

    /** `RollbackSnapshotPoint`. */
    method RollbackSnapshotPoint(start: Point, end: Point) returns (r: Outcome)
      modifies this`points
      ensures (r, points) == RollbackPoints(old(points), start, end)
    {
      if points == [] || points[|points| - 1] != start {
        return Refused;
      }
      var more := true;
      r := Done;
      while more
        invariant more ==> r == Done && PopTo(points, end) == PopTo(old(points), end)
        invariant !more ==> (r, points) == PopTo(old(points), end)
        decreases more, |points|
      {
        if points == [] {
          r, more := Refused, false;
        } else {
          var point := points[|points| - 1];
          if point.accountHeight <= end.accountHeight {
            points := points[..|points| - 1];
          } else {
            more := false;
          }
          if point.accountHeight == end.accountHeight {
            more := false;
          }
        }
      }
    }
  }
}
