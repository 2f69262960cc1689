/** The chain pool as objects: forked chains whose fields change in place and whose refer
    pointers are reversed, proved against the value-level operations of PoolSteps. */
module ChainPools {
  import opened Blocks
  import opened ForkTree
  import opened Rerooting
  import opened PoolSteps
  import opened PoolMachine
  import opened PoolRuns
  import opened ForkSwitch

  class ForkedChain {
    const chainId: Id
    var heightBlocks: map<int, Block>
    var headHeight: int
    var tailHeight: int
    var headHash: Hash
    var tailHash: Hash
    var referChain: ForkedChain?  // null when the chain refers to the disk

    constructor (chainId: Id, tail: int, tailHash: Hash, head: int, headHash: Hash, blocks: map<int, Block>,
                 refer: ForkedChain?)
      ensures this.chainId == chainId && View() == Forked(tail, tailHash, head, headHash, blocks, RefTo(refer))
      ensures referChain == refer
    {
      this.chainId, this.tailHeight, this.tailHash := chainId, tail, tailHash;
      this.headHeight, this.headHash, this.heightBlocks := head, headHash, blocks;
      this.referChain := refer;
    }

    ghost function View(): Forked
      reads this
    {
      Forked(tailHeight, tailHash, headHeight, headHash, heightBlocks, RefTo(referChain))
    }

    /** Blocks are stored under their own heights. */
    ghost predicate Keyed()
      reads this
    {
      forall h | h in heightBlocks :: heightBlocks[h].height == h
    }

    method AddHead(w: Block)
      requires Keyed()
      modifies this
      ensures Keyed()
      ensures View() == old(View()).(headHash := w.hash, head := w.height, blocks := old(heightBlocks)[w.height := w])
      ensures referChain == old(referChain)
    {
      headHash := w.hash;
      headHeight := w.height;
      heightBlocks := heightBlocks[w.height := w];
    }

    method RemoveTail(w: Block)
      requires Keyed()
      modifies this
      ensures Keyed()
      ensures View() == old(View()).(tailHash := w.hash, tail := w.height, blocks := old(heightBlocks) - {w.height})
      ensures referChain == old(referChain)
    {
      tailHash := w.hash;
      tailHeight := w.height;
      heightBlocks := heightBlocks - {w.height};
    }

    method AddTail(w: Block)
      requires Keyed()
      modifies this
      ensures Keyed()
      ensures View() == PushTail(old(View()), w) && referChain == old(referChain)
    {
      tailHash := w.preHash;
      tailHeight := w.height - 1;
      heightBlocks := heightBlocks[w.height := w];
    }
  }

  ghost function RefTo(c: ForkedChain?): Ref {
    if c == null then Disk else Chain(c.chainId)
  }

  /** What a verification of one block can come back with, the fork version included: a bump
      while verifying voids the verdict. */
  datatype Verdict = Pending | Fail | Success | Bumped

  /** What the verifier says of a block, and what the chain store would then make of it. */
  datatype Answer = Answer(verdict: Verdict, store: StoreAnswer)

  /** A verified block that the store takes. */
  const GOOD := Answer(Success, TakenIn)

  /** A verified block that the store keeps although it reports an error. */
  const KEPT := Answer(Success, KeptInError)

  class ChainPool {
    var disk: seq<Block>
    var chains: map<Id, ForkedChain>
    var current: ForkedChain
    var lastId: Id

    ghost predicate Valid()
      reads this, chains.Values
    {
      && current.chainId in chains && chains[current.chainId] == current
      && (forall id | id in chains :: chains[id].chainId == id && chains[id].Keyed() && id <= lastId)
      && (forall id | id in chains && chains[id].referChain != null :: Has(chains[id].referChain))
    }

    ghost predicate Has(c: ForkedChain?)
      reads this
    {
      c != null && c.chainId in chains && chains[c.chainId] == c
    }

    ghost function View(): Pool
      reads this, chains.Values
    {
      Pool(disk, map id | id in chains :: chains[id].View(), current.chainId, lastId)
    }

    constructor (disk: seq<Block>)
      ensures Valid() && View() == Init(disk)
    {
      this.disk := disk;
      var head := DiskHead(disk);
      var c := new ForkedChain(1, head.height, head.hash, head.height, head.hash, map[], null);
      this.chains, this.current, this.lastId := map[1 := c], c, 1;
    }

    /** `getBlock`, walking the refer pointers. */
    method GetBlock(chain: ForkedChain, h: int) returns (b: Option<Block>)
      requires Valid() && Has(chain) && Acyclic(View())
      ensures b == At(View(), chain.chainId, h)
    {
      var c: ForkedChain? := chain;
      while c != null && h !in c.heightBlocks
        invariant c != null ==> Has(c)
        invariant At(View(), chain.chainId, h) == Get(View(), RefTo(c), h)
        decreases Rank(View(), RefTo(c))
      {
        ParentIsBelow(View(), c.chainId);
        OwnOrParent(View(), c.chainId, h);
        c := c.referChain;
      }
      if c != null {
        b := Some(c.heightBlocks[h]);
      } else {
        b := DiskBlock(disk, h);
      }
    }

    /** `insert`. */
    method InsertBlock(c: ForkedChain, w: Block) returns (ok: bool)
      requires Valid() && Has(c)
      modifies c
      ensures Valid() && View() == Insert(old(View()), c.chainId, w)
      ensures ok == (w.height == old(c.headHeight) + 1 && old(c.headHash) == w.preHash)
    {
      if w.height == c.headHeight + 1 && c.headHash == w.preHash {
        c.AddHead(w);
        ok := true;
      } else {
        ok := false;
      }
    }

    /** `forkChain`. */
    method ForkChain(parent: ForkedChain, s: Snippet) returns (c: ForkedChain)
      requires Valid() && Has(parent) && forall h | h in s.blocks :: s.blocks[h].height == h
      modifies this
      ensures Valid() && Has(c) && View() == Fork(old(View()), parent.chainId, s)
      ensures fresh(c) && c.chainId == old(lastId) + 1 && chains == old(chains)[c.chainId := c]
    {
      lastId := lastId + 1;
      c := new ForkedChain(lastId, s.tail, "", s.head, s.headHash, s.blocks, parent);
      chains := chains[lastId := c];
      Added(c);
    }

    twostate lemma Added(new c: ForkedChain)
      requires old(Valid()) && c.chainId == old(lastId) + 1 == lastId && chains == old(chains)[c.chainId := c]
      requires disk == old(disk) && current == old(current)
      requires forall id | id in old(chains) :: unchanged(old(chains)[id])
      ensures View() == old(View()).(chains := old(View()).chains[c.chainId := c.View()], lastId := lastId)
    {
      assert forall id | id in old(chains) :: chains[id].View() == old(chains[id].View());
    }

    /** `writeToChain`. When the store reports an error the pool stays as it is, even if the store
        has kept the block. */
    method WriteToChain(w: Block, answer: StoreAnswer) returns (ok: bool)
      requires Valid() && current.tailHeight + 1 in current.heightBlocks
      requires w == current.heightBlocks[current.tailHeight + 1]
      modifies this`disk, current
      ensures Valid() && ok == answer.TakenIn?
      ensures View() == match answer
                        case TakenIn => Write(old(View()))
                        case TurnedAway => old(View())
                        case KeptInError => Keep(old(View()), w)
    {
      ok := answer.TakenIn?;
      if !answer.TurnedAway? {
        disk := disk + [w];
      }
      if ok {
        current.RemoveTail(w);
      }
    }

    /** `insertNotify`. */
    method InsertNotify(head: Block)
      requires Valid()
      modifies this, current
      ensures Valid() && View() == Notify(old(View()), head)
    {
      if current.headHeight == current.tailHeight {
        if current.tailHash == head.preHash && current.headHash == head.preHash {
          current.headHash := head.hash;
          current.tailHash := head.hash;
          current.tailHeight := head.height;
          current.headHeight := head.height;
          return;
        }
      }
      CurrentModify(head);
    }

    /** `currentModify` of the chain pool: a new empty chain at the disk's head. */
    method CurrentModify(head: Block)
      requires Valid()
      modifies this
      ensures Valid()
      ensures View() == old(View()).(lastId := old(lastId) + 1, current := old(lastId) + 1,
                chains := old(View()).chains[old(lastId) + 1 :=
                            Forked(head.height, head.hash, head.height, head.hash, map[], Disk)])
    {
      lastId := lastId + 1;
      var c := new ForkedChain(lastId, head.height, head.hash, head.height, head.hash, map[], null);
      current := c;
      chains := chains[lastId := c];
    }

    /** `modifyRefer`. Only the first turn of its loop can meet a block that is not there, and then
        nil is dereferenced before anything is changed. */
    method ModifyRefer(from: ForkedChain, to: ForkedChain) returns (crashed: bool)
      requires Valid() && Has(from) && Has(to) && from != to && to.referChain == from
      modifies from, to
      ensures Valid() && (crashed <==> !SwapRuns(old(View()), from.chainId, to.chainId, false))
      ensures View() == if crashed then old(View()) else Swap(old(View()), from.chainId, to.chainId, false)
    {
      assert View().chains[from.chainId] == from.View() && View().chains[to.chainId] == to.View();
      crashed := to.tailHeight > from.tailHeight && to.tailHeight !in from.heightBlocks;
      if !crashed { SwapPlaces(from, to, View()); }
    }

    /** `modifyRefer` where every block that moves is there. */
    method SwapPlaces(from: ForkedChain, to: ForkedChain, ghost p: Pool)
      requires Valid() && Has(from) && Has(to) && from != to && to.referChain == from
      requires p == View() && SwapRuns(p, from.chainId, to.chainId, false)
      modifies from, to
      ensures Valid() && View() == Swap(p, from.chainId, to.chainId, false)
    {
      MoveTail(from, to);
      Relink(from, to);
      ghost var q := Swap(p, from.chainId, to.chainId, false);
      forall id | id in chains
        ensures chains[id].View() == q.chains[id]
      {
        if chains[id] != from && chains[id] != to { assert chains[id].View() == p.chains[id]; }
      }
      Shows(q);
    }

    /** The child refers to what its parent referred to, and the parent to the child. */
    method Relink(from: ForkedChain, to: ForkedChain)
      requires Valid() && Has(from) && Has(to) && from != to
      modifies from`referChain, to`referChain
      ensures Valid() && from.referChain == to && to.referChain == old(from.referChain)
      ensures from.View() == old(from.View()).(refer := Chain(to.chainId)) && to.View() == old(to.View()).(refer := old(from.View()).refer)
    {
      to.referChain := from.referChain;
      from.referChain := to;
    }

    lemma Shows(q: Pool)
      requires q.disk == disk && q.current == current.chainId && q.lastId == lastId && q.chains.Keys == chains.Keys
      requires forall id | id in chains :: chains[id].View() == q.chains[id]
      ensures View() == q
    {
      assert View().chains == q.chains;
    }

    /** `currentModifyToChain`; `removed` is the block the store removed last, if it still answers with
        it as its head, as an account's does. */
    method CurrentModifyToChain(chain: ForkedChain, removed: Option<Block>) returns (ok: bool, crashed: bool)
      requires Valid() && Has(chain) && Acyclic(View())
      modifies this`current, chains.Values
      ensures var head := if removed.Some? then removed.value else DiskHead(old(disk));
              var out := SwitchAsked(old(View()), chain.chainId, head, false);
              (crashed <==> out.None?) && (!crashed ==> View() == out.value)
      ensures Valid()
      ensures ok ==> !crashed && current == chain && chain.referChain == null
      ensures !ok && !crashed ==> View() == old(View())
    {
      var head := if removed.Some? then removed.value else DiskHead(disk);
      ok, crashed := SwitchIfHeld(chain, head, View());
    }

    /** The switch, against a head. */
    method SwitchIfHeld(chain: ForkedChain, head: Block, ghost p: Pool) returns (ok: bool, crashed: bool)
      requires Valid() && Has(chain) && Acyclic(p) && p == View()
      modifies this`current, chains.Values
      ensures Valid() && (crashed <==> SwitchAsked(p, chain.chainId, head, false).None?)
      ensures !crashed ==> View() == SwitchAsked(p, chain.chainId, head, false).value
      ensures ok ==> !crashed && current == chain && chain.referChain == null
      ensures !ok && !crashed ==> View() == p
    {
      ok, crashed := false, false;
      var w := GetBlock(chain, head.height);
      if w.Some? && w.value.hash == head.hash {
        crashed := WalkDown(chain);
        if !crashed {
          MakeCurrent(chain);
          ok := true;
        }
      }
    }

    method MakeCurrent(chain: ForkedChain)
      requires Valid() && Has(chain)
      modifies this`current
      ensures Valid() && current == chain && View() == old(View()).(current := chain.chainId)
    {
      current := chain;
    }

    /** The loop of `currentModifyToChain`. */
    method WalkDown(chain: ForkedChain) returns (crashed: bool)
      requires Valid() && Has(chain) && Acyclic(View())
      modifies chains.Values
      ensures Valid() && (crashed <==> Reroot(old(View()), chain.chainId, false).None?)
      ensures !crashed ==> View() == Reroot(old(View()), chain.chainId, false).value && chain.referChain == null
    {
      ghost var p := View();
      crashed := false;
      while chain.referChain != null && !crashed
        invariant Valid() && Has(chain) && Acyclic(View())
        invariant if crashed then Reroot(p, chain.chainId, false).None?
                  else Reroot(View(), chain.chainId, false) == Reroot(p, chain.chainId, false)
        decreases !crashed, |Path(View(), chain.chainId)|
      {
        assert Has(chains[chain.chainId].referChain);
        crashed := HopDown(chain);
      }
      assert View().chains[chain.chainId] == chain.View();
    }

    /** One turn of the loop of `currentModifyToChain`. */
    method HopDown(chain: ForkedChain) returns (crashed: bool)
      requires Valid() && Has(chain) && Acyclic(View()) && chain.referChain != null
      modifies chain, chain.referChain
      ensures Valid() && Acyclic(View())
      ensures crashed ==> Reroot(old(View()), chain.chainId, false).None?
      ensures !crashed ==> Reroot(View(), chain.chainId, false) == Reroot(old(View()), chain.chainId, false)
      ensures !crashed ==> |Path(View(), chain.chainId)| < |Path(old(View()), chain.chainId)|
    {
      ghost var p := View();
      assert Has(chains[chain.chainId].referChain);
      assert p.chains[chain.chainId] == chain.View();
      RerootSteps(p, chain.chainId, false);
      assert Descends(p, RankOf(p), chain.chainId);
      crashed := ModifyRefer(chain.referChain, chain);
    }

    /** One turn of the loop of `rollback`: the disk's head goes back under current. */
    method RollbackOne()
      requires Valid() && |disk| > 0 && disk[|disk| - 1].height == |disk| - 1
      modifies this`disk, current
      ensures Valid() && View() == Pop(old(View()))
      ensures disk == old(disk)[..|old(disk)| - 1] && current.tailHeight == |disk| - 1
    {
      var block := disk[|disk| - 1];
      disk := disk[..|disk| - 1];
      current.AddTail(block);
    }

    method RollbackTurn(ghost v: Pool, ghost p: Pool, ghost stop: int) returns (ghost v': Pool, removed: Block)
      requires Valid() && HeightsOk(disk) && View() == v && OnTheWay(v, p, stop) && stop < |disk| - 1
      modifies this`disk, current
      ensures Valid() && HeightsOk(disk) && View() == v' && OnTheWay(v', p, stop)
      ensures |disk| == |old(disk)| - 1 && current.tailHeight == |disk| - 1 && removed.height == |disk|
    {
      StaysOnTheWay(v, p, stop);
      HeightsOkBelow(disk);
      v' := Pop(v);
      removed := disk[|disk| - 1];
      RollbackOne();
    }

    /** `rollback`; `refuse` holds the heights the chain store will not remove. The check at the end asks
        the store for its head; `lags` says that the store then answers with the block it removed last,
        as an account's does. So for an account no rollback that removed something succeeds. */
    method Rollback(newHeight: int, refuse: set<int>, lags: bool) returns (ok: bool)
      requires Valid() && -1 <= newHeight && current.tailHeight == |disk| - 1
      requires HeightsOk(disk)
      modifies this`disk, current
      ensures Valid() && View() == PopTo(old(View()), StopAt(old(current.tailHeight), newHeight, refuse))
      ensures ok == (StopAt(old(current.tailHeight), newHeight, refuse) == newHeight
                     && current.tailHash == DiskHead(disk).hash && !(lags && newHeight < old(current.tailHeight)))
    {
      ghost var p, stop := View(), StopAt(current.tailHeight, newHeight, refuse);
      ghost var v := p;
      var i, removed: Option<Block> := current.tailHeight, None;
      while i > newHeight
        invariant Valid() && View() == v && i == current.tailHeight == |disk| - 1 && HeightsOk(disk)
        invariant i <= old(current.tailHeight) && stop <= Max(i, newHeight) && OnTheWay(v, p, stop)
        invariant if i == old(current.tailHeight) then removed == None else removed.Some? && removed.value.height == i + 1
      {
        StopsOrPasses(i, old(current.tailHeight), newHeight, refuse);
        if i in refuse {
          Arrived(v, p, stop);
          return false;
        }
        var w;
        v, w := RollbackTurn(v, p, stop);
        removed := Some(w);
        i := i - 1;
      }
      Arrived(v, p, stop);
      HeightsOkBelow(disk);
      var head := if lags && removed.Some? then removed.value else DiskHead(disk);
      ok := current.tailHeight == head.height && current.tailHash == head.hash;
    }

    /** `getForkPoint`: the greatest common block and, on the longest chain, the one above it. */
    method GetForkPoint(longest: ForkedChain, cur: ForkedChain) returns (key: Option<Block>, fork: Option<Block>)
      requires Valid() && Has(longest) && Has(cur) && TreeOk(View())
      ensures fork.Some? <==> ForkPoint(View(), longest.chainId, cur.chainId).Some?
      ensures fork.Some? ==>
                var f := ForkPoint(View(), longest.chainId, cur.chainId).value;
                fork == At(View(), longest.chainId, f) && key == At(View(), longest.chainId, f + 1)
    {
      var i := cur.headHeight;
      assert View().chains[cur.chainId] == cur.View();
      ghost var p, a, b, f := View(), longest.chainId, cur.chainId, ForkPoint(View(), longest.chainId, cur.chainId);
      while true
        invariant Scan(p, a, b, i) == f
        decreases Max(i + 1, 0)
      {
        var block := GetBlock(longest, i);
        var curBlock := GetBlock(cur, i);
        ScanTurns(p, a, b, i);
        if block.None? {
          return None, None;
        }
        if curBlock.None? {
          return None, None;
        }
        if block.value.hash == curBlock.value.hash {
          fork := block;
          key := GetBlock(longest, i + 1);
          return;
        }
        i := i - 1;
      }
    }

    /** `AddDirectBlock`: a block verified on the spot goes straight to the disk. The pool is told
        only when the store reports no error. */
    method AddDirectBlock(b: Block, verdict: Verdict, answer: StoreAnswer) returns (ok: bool)
      requires Valid()
      modifies this, current
      ensures Valid() && ok == (verdict == Success && answer.TakenIn?)
      ensures View() == if ok then Direct(old(View()), b)
                        else if verdict == Success && answer.KeptInError? then Keep(old(View()), b)
                        else old(View())
    {
      if verdict != Success || answer.TurnedAway? {
        return false;
      }
      disk := disk + [b];
      if answer.KeptInError? {
        return false;
      }
      InsertNotify(b);
      ok := true;
    }

    /** `k` blocks of `p` have been written down since, by answers[..k]. */
    ghost predicate Wrote(p: Pool, answers: seq<Answer>, k: nat)
      requires Inv(p)
      reads this, chains.Values
    {
      var c := p.chains[p.current];
      && Valid() && k <= c.head - c.tail == |answers| && View() == Rewrite(p, k)
      && current.tailHeight == c.tail + k && current.headHeight == c.head
      && Streak(answers, 0) == k + Streak(answers, k)
    }

    lemma NothingWritten(answers: seq<Answer>)
      requires Valid() && Inv(View()) && |answers| == current.headHeight - current.tailHeight
      ensures Wrote(View(), answers, 0)
    {
      assert View().chains[View().current] == current.View();
      CurrentInRange(View());
    }

    lemma NothingMore(p: Pool, answers: seq<Answer>, k: nat)
      requires Inv(p) && Wrote(p, answers, k) && (k < |answers| ==> answers[k].verdict != Success)
      ensures Written(p, View(), answers)
    {
    }

    /** One turn of an insert loop that has skipped no block: write it if the answer lets it. */
    method WriteLowest(ghost p: Pool, answers: seq<Answer>, k: nat) returns (ok: bool)
      requires Inv(p) && Wrote(p, answers, k) && k < |answers|
      modifies this`disk, current
      ensures Valid() && ok == (answers[k] == GOOD)
      ensures ok ==> Wrote(p, answers, k + 1)
      ensures !ok ==> Streak(answers, 0) == k && Written(p, View(), answers)
    {
      RewriteLast(p, k + 1);
      assert View().chains[View().current] == current.View();
      if answers[k].verdict != Success {
        return false;
      }
      ok := WriteToChain(current.heightBlocks[current.tailHeight + 1], answers[k].store);
      assert View().chains[View().current] == current.View();
    }

    /** The loop of the snapshot pool's `snapshotTryInsert`: a voided verdict skips the block and
        goes on, anything else that is not written ends the loop. `answers[j]` is for the j-th
        block above current's tail. */
    method SnapshotTryInsert(answers: seq<Answer>)
      requires Valid() && Inv(View()) && |answers| == current.headHeight - current.tailHeight
      modifies this`disk, current
      ensures Valid() && Written(old(View()), View(), answers)
    {
      ghost var p := View();
      NothingWritten(answers);
      var j, k, ok := 0, 0, true;
      while ok && j < |answers|
        invariant 0 <= k <= j <= |answers| && current == old(current) && Valid()
        invariant if ok then Wrote(p, answers, k) else Written(p, View(), answers)
        invariant ok && k < j ==> answers[k].verdict == Bumped
        decreases ok, |answers| - j
      {
        if answers[j].verdict == Bumped {
          j := j + 1;
          continue;
        }
        if k != j {
          break;
        }
        ok := WriteLowest(p, answers, k);
        j, k := j + 1, if ok then k + 1 else k;
      }
      if ok { NothingMore(p, answers, k); }
    }

    /** The loop of the account pool's `tryInsert`: it ends at the first block not written. */
    method TryInsert(answers: seq<Answer>)
      requires Valid() && Inv(View()) && |answers| == current.headHeight - current.tailHeight
      modifies this`disk, current
      ensures Valid() && Written(old(View()), View(), answers)
    {
      ghost var p := View();
      NothingWritten(answers);
      var k, ok := 0, true;
      while ok && k < |answers|
        invariant 0 <= k <= |answers| && current == old(current) && Valid()
        invariant if ok then Wrote(p, answers, k) else Written(p, View(), answers)
        decreases ok, |answers| - k
      {
        ok := WriteLowest(p, answers, k);
        k := if ok then k + 1 else k;
      }
      if ok { NothingMore(p, answers, k); }
    }

    /** `LongestChain`: the highest chain if it is more than four above current, else current. */
    method LongestChain() returns (c: ForkedChain)
      requires Valid()
      ensures Has(c) && (c == current || c.headHeight > current.headHeight + 4)
      ensures forall id | id in chains ::
                chains[id].headHeight <= if c == current then current.headHeight + 4 else c.headHeight
    {
      var longest, left := current, chains.Keys;
      while left != {}
        invariant left <= chains.Keys && Has(longest) && longest.headHeight >= current.headHeight
        invariant longest != current ==> longest.headHeight > current.headHeight
        invariant forall id | id in chains && id !in left :: chains[id].headHeight <= longest.headHeight
        decreases |left|
      {
        EmptyOrNot(left);
        var id :| id in left;
        if chains[id].headHeight > longest.headHeight {
          longest := chains[id];
        }
        left := left - {id};
      }
      c := if longest.headHeight - 4 > current.headHeight then longest else current;
    }

    /** `checkFork`: a fork to the longest chain is tried exactly when that is more than four above
        current. */
    method CheckFork(unlocked: bool, accountsForked: bool) returns (done: bool, crashed: bool, target: ForkedChain)
      requires Valid() && Inv(View())
      modifies this`disk, this`current, chains.Values
      ensures Valid() && target in old(chains.Values)
      ensures forall id | id in old(chains) ::
                old(chains)[id] == target || old(chains[id].headHeight) <= old(Max(target.headHeight, current.headHeight + 4))
      ensures target == old(current) || old(target.headHeight) > old(current.headHeight) + 4
      ensures target == old(current) ==> !done && !crashed && View() == old(View())
      ensures target != old(current) ==>
                ForkedTo(old(View()), target.chainId, unlocked && accountsForked, done, crashed, View())
    {
      target := LongestChain();
      if target.chainId == current.chainId {
        return false, false, target;
      }
      done, crashed := ForkTo(target, unlocked, accountsForked);
    }

    /** `snapshotFork`; the two flags are the answers of the account side. */
    method ForkTo(longest: ForkedChain, unlocked: bool, accountsForked: bool) returns (done: bool, crashed: bool)
      requires Valid() && Inv(View()) && Has(longest) && longest != current
      modifies this`disk, this`current, chains.Values
      ensures Valid() && ForkedTo(old(View()), longest.chainId, unlocked && accountsForked, done, crashed, View())
    {
      done, crashed := false, false;
      assert View().chains[View().current] == current.View();
      var key, fork := GetForkPoint(longest, current);
      if fork.None? {
        return;
      }
      if key.None? {
        return false, true;
      }
      if !unlocked || !accountsForked {
        return;
      }
      FoundAtHeight(View(), Chain(longest.chainId), ForkPoint(View(), longest.chainId, current.chainId).value);
      done, crashed := CutAndSwitch(longest, fork.value.height);
    }

    /** The rollback and the switch of `snapshotFork`. */
    method CutAndSwitch(longest: ForkedChain, f: int) returns (done: bool, crashed: bool)
      requires Valid() && Inv(View()) && Has(longest) && longest != current && !KeyMissing(View(), longest.chainId)
      requires f >= 0 && ForkPoint(View(), longest.chainId, current.chainId) == Some(f)
      modifies this`disk, this`current, chains.Values
      ensures Valid()
      ensures Matches(SnapshotFork(old(View()), longest.chainId, false), done, crashed, old(View()), View())
    {
      ghost var p := View();
      assert p.chains[p.current] == current.View();
      PopToRoots(p, f, longest.chainId);
      StopsAtFirstRefusal(current.tailHeight, f, {});
      var ok := Rollback(f, {}, false);
      ghost var q := View();
      assert q == PopTo(p, f) && q.chains[q.current] == current.View();
      if !ok {
        return false, false;
      }
      done, crashed := CurrentModifyToChain(longest, None);
      assert done ==> View().current == longest.chainId;
    }
  }

  /** How many answers, from the j-th on, come before one that does not let its block through. */
  function Streak(answers: seq<Answer>, j: nat): (k: nat)
    requires j <= |answers|
    ensures j + k <= |answers|
    decreases |answers| - j
  {
    if j < |answers| && answers[j] == GOOD then 1 + Streak(answers, j + 1) else 0
  }

  lemma {:induction false} StreakIsUnbroken(answers: seq<Answer>, j: nat)
    requires j <= |answers|
    ensures forall i | j <= i < j + Streak(answers, j) :: answers[i] == GOOD
    ensures j + Streak(answers, j) < |answers| ==> answers[j + Streak(answers, j)] != GOOD
    decreases |answers| - j
  {
    if j < |answers| && answers[j] == GOOD { StreakIsUnbroken(answers, j + 1); }
  }

  /** The loop ended at a block that the store kept in error. */
  predicate EndsInError(answers: seq<Answer>) {
    Streak(answers, 0) < |answers| && answers[Streak(answers, 0)] == KEPT
  }

  /** `q` is `p` after writing down the unbroken run of verified blocks taken in above current's
      tail, plus the block the store kept in error if the loop ended at one, and nothing more. */
  ghost predicate Written(p: Pool, q: Pool, answers: seq<Answer>)
    requires Inv(p) && |answers| == p.chains[p.current].head - p.chains[p.current].tail
  {
    q == if EndsInError(answers) then KeepNext(p, Streak(answers, 0)) else Rewrite(p, Streak(answers, 0))
  }

  /** k writes, and one that ends in an error with the block kept. */
  ghost function KeepNext(p: Pool, k: nat): Pool
    requires Inv(p) && k < p.chains[p.current].head - p.chains[p.current].tail
  {
    RewriteLast(p, k + 1);
    var z := Rewrite(p, k);
    Keep(z, z.chains[z.current].blocks[z.chains[z.current].tail + 1])
  }

  lemma CurrentInRange(p: Pool)
    requires Inv(p)
    ensures -1 <= p.chains[p.current].tail <= p.chains[p.current].head
  {
    assert ChainOk(p, p.current);
  }

  /** Whatever verifier and store answer, an insert loop puts on the disk the unbroken run of
      verified blocks taken in, and above it at most one that the store kept in error; every
      complete chain is left as it was, and the disk stays linked. The invariant holds after it
      exactly when no block was kept in error; in particular always for an account, whose store
      never does that. A block kept in error stays current's lowest, to be offered again. */
  lemma InsertLoopIsSafe(p: Pool, q: Pool, answers: seq<Answer>, id: Id)
    requires Inv(p) && |answers| == p.chains[p.current].head - p.chains[p.current].tail
    requires Written(p, q, answers) && id in p.chains && Sound(p, id)
    ensures var k := Streak(answers, 0);
            && k <= |answers| && (forall i | 0 <= i < k :: answers[i] == GOOD)
            && (k < |answers| ==> answers[k] != GOOD)
            && Grown(p, q, if EndsInError(answers) then k + 1 else k, id)
    ensures Inv(q) <==> !EndsInError(answers)
    ensures EndsInError(answers) ==> OffersHead(q)
  {
    var k := Streak(answers, 0);
    StreakIsUnbroken(answers, 0);
    if EndsInError(answers) { KeptAfterRun(p, k, id); } else { RunIsSafe(p, k, id); }
  }

  /** The disk has grown by n blocks, those that current held above its tail; it is linked, and the
      complete chain `id` goes on. */
  ghost predicate Grown(p: Pool, q: Pool, n: nat, id: Id)
    requires Inv(p) && id in p.chains
  {
    && TreeOk(q) && DiskOk(q.disk) && Continues(p, q, id)
    && |q.disk| == |p.disk| + n && q.disk[..|p.disk|] == p.disk
    && forall h | |p.disk| <= h < |q.disk| :: At(p, p.current, h) == Some(q.disk[h])
  }

  lemma RunIsSafe(p: Pool, k: nat, id: Id)
    requires Inv(p) && k <= p.chains[p.current].head - p.chains[p.current].tail && id in p.chains && Sound(p, id)
    ensures Inv(Rewrite(p, k)) && Grown(p, Rewrite(p, k), k, id)
  {
    RewriteContinues(p, k, id);
    RewriteReads(p, k);
  }

  /** Current's lowest block is the one the disk ends with. */
  predicate OffersHead(q: Pool) {
    && q.current in q.chains && q.chains[q.current].tail + 1 in q.chains[q.current].blocks
    && q.chains[q.current].blocks[q.chains[q.current].tail + 1] == DiskHead(q.disk)
  }

  /** The pool after the k-th write ended in an error. */
  lemma KeptAfterRun(p: Pool, k: nat, id: Id)
    requires Inv(p) && k < p.chains[p.current].head - p.chains[p.current].tail && id in p.chains && Sound(p, id)
    ensures Grown(p, KeepNext(p, k), k + 1, id) && !Inv(KeepNext(p, k)) && OffersHead(KeepNext(p, k))
  {
    RewriteContinues(p, k, id);
    RewriteLast(p, k + 1);
    RewriteReads(p, k + 1);
    RewriteContinues(p, k + 1, id);
    var z := Rewrite(p, k);
    RewriteTail(p, k);
    WriteDiskOk(z);
    var w := z.chains[z.current].blocks[z.chains[z.current].tail + 1];
    assert Keep(z, w).disk == Rewrite(p, k + 1).disk;
    KeptContinues(z, w, id);
    ContinuesTrans(p, z, Keep(z, w), id);
  }

  lemma {:induction false} RewriteTail(p: Pool, k: nat)
    requires Inv(p) && k <= p.chains[p.current].head - p.chains[p.current].tail
    ensures var z := Rewrite(p, k);
            && z.current in z.chains
            && z.chains[z.current].tail == p.chains[p.current].tail + k
            && z.chains[z.current].head == p.chains[p.current].head
    decreases k
  {
    if k > 0 {
      WriteKeepsInv(p);
      CurrentInRange(p);
      assert ChainOk(p, p.current);
      RewriteTail(Write(p), k - 1);
    }
  }

  /** The disk after k writes holds what current held. */
  lemma RewriteReads(p: Pool, k: nat)
    requires Inv(p) && k <= p.chains[p.current].head - p.chains[p.current].tail
    ensures forall h | |p.disk| <= h < |Rewrite(p, k).disk| :: At(p, p.current, h) == Some(Rewrite(p, k).disk[h])
  {
    CurrentIsSound(p);
    CurrentInRange(p);
    RewriteContinues(p, k, p.current);
    RewriteKeepsCurrent(p, k);
    forall h | |p.disk| <= h < |Rewrite(p, k).disk|
      ensures At(p, p.current, h) == Some(Rewrite(p, k).disk[h])
    {
      CurrentReadsDisk(Rewrite(p, k), h);
    }
  }

  /** A direct insertion that ends in a store error leaves the pool where a kept block leaves it. */
  lemma DirectErrorBreaks(p: Pool, b: Block, id: Id)
    requires Inv(p) && NextOnDisk(p.disk, b) && id in p.chains && Sound(p, id)
    ensures TreeOk(Keep(p, b)) && DiskOk(Keep(p, b).disk) && Continues(p, Keep(p, b), id) && !Inv(Keep(p, b))
  {
    DirectTreeOk(p, b);
    DirectChains(p, b);
    KeptContinues(p, b, id);
  }

  lemma RewriteKeepsCurrent(p: Pool, k: nat)
    requires Inv(p) && k <= p.chains[p.current].head - p.chains[p.current].tail
    ensures Rewrite(p, k).current == p.current
  {
  }

  ghost predicate HeightsOk(disk: seq<Block>) {
    forall i | 0 <= i < |disk| :: disk[i].height == i
  }

  /** Rolling `v` back leads where rolling `p` back does. */
  ghost predicate OnTheWay(v: Pool, p: Pool, stop: int) {
    v.current in v.chains && p.current in p.chains && -1 <= stop && PopTo(v, stop) == PopTo(p, stop)
  }

  lemma Arrived(v: Pool, p: Pool, stop: int)
    requires OnTheWay(v, p, stop) && |v.disk| - 1 <= stop
    ensures v == PopTo(p, stop)
  {
  }

  lemma StaysOnTheWay(v: Pool, p: Pool, stop: int)
    requires OnTheWay(v, p, stop) && stop < |v.disk| - 1
    ensures OnTheWay(Pop(v), p, stop)
  {
  }

  lemma HeightsOkBelow(disk: seq<Block>)
    requires HeightsOk(disk)
    ensures DiskHead(disk).height == |disk| - 1
    ensures |disk| > 0 ==> HeightsOk(disk[..|disk| - 1])
  {
  }

  /** The state and the answer agree with the outcome. */
  ghost predicate Matches(out: Outcome, done: bool, crashed: bool, before: Pool, after: Pool) {
    match out
    case Switched(q) => done && !crashed && after == q
    case NoForkPoint => !done && !crashed && after == before
    case RollbackFailed(q) => !done && !crashed && after == q
    case Refused(q) => !done && !crashed && after == q
    case Crashed => !done && crashed
  }

  /** What a tried fork leaves; the account side may stop it before anything is changed. */
  ghost predicate ForkedTo(before: Pool, longest: Id, accountsAgree: bool, done: bool, crashed: bool, after: Pool)
    requires Inv(before) && longest in before.chains
  {
    if accountsAgree then Matches(SnapshotFork(before, longest, false), done, crashed, before, after)
    else !done && after == before && (crashed <==> KeyMissing(before, longest))
  }

  /** Where a rollback ends: at the first height refused on the way down, or where it was asked. */
  function StopAt(height: int, newHeight: int, refuse: set<int>): (h: int)
    requires -1 <= newHeight
    ensures newHeight <= h && (h == newHeight || h <= height)
    decreases height - newHeight
  {
    if height <= newHeight then newHeight
    else if height in refuse then height
    else StopAt(height - 1, newHeight, refuse)
  }

  lemma {:induction false} StopsAtFirstRefusal(height: int, newHeight: int, refuse: set<int>)
    requires -1 <= newHeight
    ensures var h := StopAt(height, newHeight, refuse);
            && (h == newHeight || h in refuse)
            && (forall i | h < i <= height :: i !in refuse)
    decreases height - newHeight
  {
    if height > newHeight && height !in refuse { StopsAtFirstRefusal(height - 1, newHeight, refuse); }
  }

  lemma StopsOrPasses(i: int, height: int, newHeight: int, refuse: set<int>)
    requires -1 <= newHeight < i <= height && StopAt(height, newHeight, refuse) <= i
    ensures StopAt(height, newHeight, refuse) == i <==> i in refuse
  {
    StopsAtFirstRefusal(height, newHeight, refuse);
  }

  /** The loop of `modifyRefer`. It stops after one turn, because its first turn raises
      `from.tailHeight` to where the loop started. */
  method MoveTail(from: ForkedChain, to: ForkedChain)
    requires from != to && from.Keyed() && to.Keyed()
    requires CanShift(from.View(), to.View(), Low(from.View(), to.View(), false))
    modifies from, to
    ensures from.Keyed() && to.Keyed()
    ensures from.referChain == old(from.referChain) && to.referChain == old(to.referChain)
    ensures var f, t := old(from.View()), old(to.View());
            && from.View() == Gave(f, t, Low(f, t, false), to.chainId).(refer := f.refer)
            && to.View() == Took(f, t, Low(f, t, false)).(refer := t.refer)
  {
    ghost var f, t := from.View(), to.View();
    var i := to.tailHeight;
    while i > from.tailHeight
      invariant from.Keyed() && to.Keyed()
      invariant from.referChain == old(from.referChain) && to.referChain == old(to.referChain)
      invariant i == t.tail ==> from.View() == f && to.View() == t
      invariant i < t.tail ==>
                  && i == t.tail - 1 && f.tail < t.tail && t.tail in f.blocks
                  && f.blocks[t.tail].height == t.tail
                  && from.View() == f.(tail := t.tail, tailHash := f.blocks[t.tail].hash, blocks := f.blocks - {t.tail})
                  && to.View() == PushTail(t, f.blocks[t.tail])
      invariant i <= t.tail
    {
      var w := from.heightBlocks[i];
      from.RemoveTail(w);
      to.AddTail(w);
      i := i - 1;
    }
    OneBlockMoves(f, t, to.chainId);
  }

  /** What moves when one turn of the loop is taken, and when none is. */
  lemma OneBlockMoves(f: Forked, t: Forked, to: Id)
    requires CanShift(f, t, Low(f, t, false))
    ensures Gave(f, t, Low(f, t, false), to) ==
            (if f.tail < t.tail then f.(tail := t.tail, tailHash := f.blocks[t.tail].hash,
                                        blocks := f.blocks - {t.tail}, refer := Chain(to))
             else f.(refer := Chain(to)))
    ensures f.tail < t.tail && f.blocks[t.tail].height == t.tail ==>
              Took(f, t, Low(f, t, false)) == PushTail(t, f.blocks[t.tail]).(refer := f.refer)
    ensures t.tail <= f.tail ==> Took(f, t, Low(f, t, false)) == t.(refer := f.refer)
  {
    if f.tail < t.tail {
      assert f.blocks - {t.tail} == map h | h in f.blocks && !(t.tail - 1 < h <= t.tail) :: f.blocks[h];
      assert t.blocks[t.tail := f.blocks[t.tail]]
          == t.blocks + map h | h in f.blocks && t.tail - 1 < h <= t.tail :: f.blocks[h];
    }
  }
}
