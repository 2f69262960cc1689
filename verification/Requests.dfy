/** The index of requests: per account, the sends addressed to it, marked as received or not.

    The index only ever hears of blocks being inserted and removed, in whatever order the accounts
    come. On every history its mark is that of the last event it heard on the request; when that is
    what the chains say is told exactly, and that it always is when blocks leave in good order. */
module Requests {
  import opened Blocks
  import opened Accounts
  import opened Stores

  /** state: 0 rolled back, 1 received, 2 not received. */
  datatype Req = Req(reqHash: Hash, acc: Option<AccountHashH>, state: int, amount: int, from: Addr)

  type Index = map<Addr, map<Hash, Req>>

  function GetReq(ix: Index, a: Addr, h: Hash): Option<Req> {
    if a in ix && h in ix[a] then Some(ix[a][h]) else None
  }

  function PutReq(ix: Index, a: Addr, h: Hash, q: Req): Index {
    ix[a := (if a in ix then ix[a] else map[])[h := q]]
  }

  // ---------------------------------------------------------------- the two callbacks

  /** `blockInsert`; None where a request that is not there is dereferenced. */
  function BlockInsert(ix: Index, b: AccBlock): Option<Index> {
    match b.kind
    case Genesis => Some(ix)
    case Send => Some(PutReq(ix, b.to, b.hash, Req(b.hash, None, 2, b.modified, b.from)))
    case Received =>
      match GetReq(ix, b.to, b.sourceHash)
      case None => None
      case Some(q) =>
        Some(PutReq(ix, b.to, b.sourceHash, q.(state := 1, acc := Some(AccountHashH(b.to, b.height, b.hash)))))
  }

  /** `blockRollback`. */
  function BlockRollback(ix: Index, b: AccBlock): Option<Index> {
    match b.kind
    case Genesis => Some(ix)
    case Send =>
      (match GetReq(ix, b.to, b.hash)
       case None => None
       case Some(q) => Some(PutReq(ix, b.to, b.hash, q.(state := 0))))
    case Received =>
      match GetReq(ix, b.to, b.sourceHash)
      case None => None
      case Some(q) => Some(PutReq(ix, b.to, b.sourceHash, q.(state := 2)))
  }

  class ReqPool {
    var accounts: Index

    constructor ()
      ensures accounts == map[]
    {
      accounts := map[];
    }

    method Insert(b: AccBlock) returns (crashed: bool)
      modifies this
      ensures crashed <==> BlockInsert(old(accounts), b).None?
      ensures accounts == if crashed then old(accounts) else BlockInsert(old(accounts), b).value
    {
      crashed := false;
      if b.kind.Send? {
        var req := Req(b.hash, None, 2, b.modified, b.from);
        if b.to !in accounts {
          accounts := accounts[b.to := map[]];
        }
        accounts := accounts[b.to := accounts[b.to][b.hash := req]];
      } else if b.kind.Received? {
        var req := GetReq(accounts, b.to, b.sourceHash);
        if req.None? {
          return true;
        }
        var received := req.value.(state := 1, acc := Some(AccountHashH(b.to, b.height, b.hash)));
        accounts := accounts[b.to := accounts[b.to][b.sourceHash := received]];
      }
    }

    method Rollback(b: AccBlock) returns (crashed: bool)
      modifies this
      ensures crashed <==> BlockRollback(old(accounts), b).None?
      ensures accounts == if crashed then old(accounts) else BlockRollback(old(accounts), b).value
    {
      crashed := false;
      if !b.kind.Genesis? {
        var h := if b.kind.Send? then b.hash else b.sourceHash;
        var req := GetReq(accounts, b.to, h);
        if req.None? {
          return true;
        }
        accounts := accounts[b.to := accounts[b.to][h := req.value.(state := if b.kind.Send? then 0 else 2)]];
      }
    }

    /** `getReqs`: in any order, each request of the account that is not received, once. */
    method GetReqs(a: Addr) returns (result: seq<Req>)
      ensures forall q :: q in result <==> exists h :: GetReq(accounts, a, h) == Some(q) && q.state != 1
      ensures a !in accounts ==> result == []
      ensures a in accounts ==> |result| <= |accounts[a]|
    {
      result := [];
      if a !in accounts {
        return;
      }
      var reqs := accounts[a];
      var left := reqs.Keys;
      while left != {}
        invariant left <= reqs.Keys && |result| <= |reqs| - |left|
        invariant forall q :: q in result <==> exists h :: h in reqs && h !in left && reqs[h] == q && q.state != 1
        decreases |left|
      {
        var h :| h in left;
        var q := reqs[h];
        ghost var before := result;
        if q.state != 1 {
          result := result + [q];
        }
        left := left - {h};
      }
      forall q
        ensures q in result <==> exists h :: GetReq(accounts, a, h) == Some(q) && q.state != 1
      {
        if h :| h in reqs && reqs[h] == q && q.state != 1 { assert GetReq(accounts, a, h) == Some(q); }
      }
    }
  }

  // ---------------------------------------------------------------- histories

  datatype Event = Inserted(block: AccBlock) | Removed(block: AccBlock)

  /** The index, the blocks now in the chains, and every block ever inserted. */
  datatype World = World(index: Index, live: set<AccBlock>, seen: set<AccBlock>)

  predicate ReceivedIn(live: set<AccBlock>, h: Hash) {
    exists r :: r in live && IsReceiveOf(r, h)
  }

  /** What can be heard of next: a block that is not there is inserted, or one that is there is
      removed. A hash names one block. Nothing is asked of the order. */
  ghost predicate Possible(w: World, e: Event) {
    match e
    case Inserted(b) => b !in w.live && (forall c | c in w.seen && c.hash == b.hash :: c == b)
    case Removed(b) => b in w.live
  }

  /** In good order a receive is only of a send that is there, addressed to the receiver and not yet
      received, and a send is only removed once nothing there receives it. */
  ghost predicate InOrder(w: World, e: Event) {
    var b := e.block;
    && Possible(w, e)
    && match e
       case Inserted(_) =>
         b.kind.Received? ==>
           && !ReceivedIn(w.live, b.sourceHash)
           && exists s :: s in w.live && s.kind.Send? && s.hash == b.sourceHash && s.to == b.to
       case Removed(_) => b.kind.Send? ==> !ReceivedIn(w.live, b.hash)
  }

  function IndexAfter(ix: Index, e: Event): Option<Index> {
    match e
    case Inserted(b) => BlockInsert(ix, b)
    case Removed(b) => BlockRollback(ix, b)
  }

  function After(w: World, e: Event): Option<World> {
    match IndexAfter(w.index, e)
    case None => None
    case Some(ix) =>
      match e
      case Inserted(b) => Some(World(ix, w.live + {b}, w.seen + {b}))
      case Removed(b) => Some(World(ix, w.live - {b}, w.seen))
  }

  // ---------------------------------------------------------------- what the marks mean

  /** The request stands for the send, and its state says where the send is now. */
  ghost predicate Tells(q: Req, s: AccBlock, live: set<AccBlock>) {
    && q.reqHash == s.hash && q.amount == s.modified && q.from == s.from
    && q.state == (if s !in live then 0 else if ReceivedIn(live, s.hash) then 1 else 2)
    && (q.state == 1 ==> exists r :: r in live && IsReceiveOf(r, s.hash) && q.acc == Some(AccountHashH(r.to, r.height, r.hash)))
  }

  ghost predicate SendTo(s: AccBlock, a: Addr, h: Hash, seen: set<AccBlock>) {
    s in seen && s.kind.Send? && s.to == a && s.hash == h
  }

  /** There is a request exactly for every send ever inserted, and it tells the truth. */
  ghost predicate MirrorsAt(w: World, a: Addr, h: Hash) {
    match GetReq(w.index, a, h)
    case None => forall s :: !SendTo(s, a, h, w.seen)
    case Some(q) => exists s :: SendTo(s, a, h, w.seen) && Tells(q, s, w.live)
  }

  ghost predicate Mirrors(w: World) {
    && w.live <= w.seen
    && (forall b, c | b in w.seen && c in w.seen && b.hash == c.hash :: b == c)
    && (forall b, c, h | b in w.live && c in w.live && IsReceiveOf(b, h) && IsReceiveOf(c, h) :: b == c)
    && (forall r | r in w.live && r.kind.Received? :: exists s :: SendTo(s, r.to, r.sourceHash, w.live))
    && (forall a, h {:trigger MirrorsAt(w, a, h)} :: MirrorsAt(w, a, h))
  }

  /** In good order no missing request is dereferenced, and the index goes on telling the truth. */
  lemma EventKeepsMirrors(w: World, e: Event)
    requires Mirrors(w) && InOrder(w, e)
    ensures After(w, e).Some? && Mirrors(After(w, e).value)
  {
    match e
    case Inserted(b) => InsertKeepsMirrors(w, b);
    case Removed(b) => RemoveKeepsMirrors(w, b);
  }

  lemma InsertKeepsMirrors(w: World, b: AccBlock)
    requires Mirrors(w) && InOrder(w, Inserted(b))
    ensures After(w, Inserted(b)).Some? && Mirrors(After(w, Inserted(b)).value)
  {
    if b.kind.Received? {
      var s :| s in w.live && s.kind.Send? && s.hash == b.sourceHash && s.to == b.to;
      assert SendTo(s, b.to, b.sourceHash, w.seen) && MirrorsAt(w, b.to, b.sourceHash);
    }
    var w' := After(w, Inserted(b)).value;
    forall a, h
      ensures MirrorsAt(w', a, h)
    {
      assert MirrorsAt(w, a, h);
      InsertMirrorsAt(w, b, a, h);
    }
    forall r | r in w'.live && r.kind.Received?
      ensures exists s :: SendTo(s, r.to, r.sourceHash, w'.live)
    {
      if r == b {
        var s :| s in w.live && s.kind.Send? && s.hash == b.sourceHash && s.to == b.to;
        assert SendTo(s, r.to, r.sourceHash, w'.live);
      } else {
        var s :| SendTo(s, r.to, r.sourceHash, w.live);
        assert SendTo(s, r.to, r.sourceHash, w'.live);
      }
    }
  }

  lemma InsertMirrorsAt(w: World, b: AccBlock, a: Addr, h: Hash)
    requires Mirrors(w) && InOrder(w, Inserted(b)) && After(w, Inserted(b)).Some? && MirrorsAt(w, a, h)
    ensures MirrorsAt(After(w, Inserted(b)).value, a, h)
  {
    var w' := After(w, Inserted(b)).value;
    ReceivedAfterInsert(w, b, h);
    match GetReq(w'.index, a, h)
    case None =>
      assert forall s :: SendTo(s, a, h, w'.seen) ==> SendTo(s, a, h, w.seen);
    case Some(q) =>
      if b.kind.Send? && b.to == a && b.hash == h {
        assert SendTo(b, a, h, w'.seen) && Tells(q, b, w'.live);
      } else {
        var s :| SendTo(s, a, h, w.seen) && Tells(GetReq(w.index, a, h).value, s, w.live);
        assert s in w'.live <==> s in w.live;
        assert SendTo(s, a, h, w'.seen) && Tells(q, s, w'.live);
      }
  }

  lemma ReceivedAfterInsert(w: World, b: AccBlock, h: Hash)
    requires Mirrors(w) && InOrder(w, Inserted(b))
    ensures ReceivedIn(w.live + {b}, h) <==> ReceivedIn(w.live, h) || IsReceiveOf(b, h)
    ensures b.kind.Send? && b.hash == h ==> !ReceivedIn(w.live, h)
  {
    if IsReceiveOf(b, h) { assert b in w.live + {b}; }
    if r :| r in w.live && IsReceiveOf(r, h) {
      assert r in w.live + {b};
      var s :| SendTo(s, r.to, r.sourceHash, w.live);
    }
  }

  lemma RemoveKeepsMirrors(w: World, b: AccBlock)
    requires Mirrors(w) && InOrder(w, Removed(b))
    ensures After(w, Removed(b)).Some? && Mirrors(After(w, Removed(b)).value)
  {
    if b.kind.Received? {
      var s :| SendTo(s, b.to, b.sourceHash, w.live);
      assert SendTo(s, b.to, b.sourceHash, w.seen) && MirrorsAt(w, b.to, b.sourceHash);
    } else if b.kind.Send? {
      assert SendTo(b, b.to, b.hash, w.seen) && MirrorsAt(w, b.to, b.hash);
    }
    var w' := After(w, Removed(b)).value;
    forall a, h
      ensures MirrorsAt(w', a, h)
    {
      assert MirrorsAt(w, a, h);
      RemoveMirrorsAt(w, b, a, h);
    }
    forall r | r in w'.live && r.kind.Received?
      ensures exists s :: SendTo(s, r.to, r.sourceHash, w'.live)
    {
      var s :| SendTo(s, r.to, r.sourceHash, w.live);
      assert SendTo(s, r.to, r.sourceHash, w'.live);
    }
  }

  lemma RemoveMirrorsAt(w: World, b: AccBlock, a: Addr, h: Hash)
    requires Mirrors(w) && InOrder(w, Removed(b)) && After(w, Removed(b)).Some? && MirrorsAt(w, a, h)
    ensures MirrorsAt(After(w, Removed(b)).value, a, h)
  {
    var w' := After(w, Removed(b)).value;
    ReceivedAfterRemove(w, b, h);
    match GetReq(w'.index, a, h)
    case None =>
    case Some(q) =>
      var s :| SendTo(s, a, h, w.seen) && Tells(GetReq(w.index, a, h).value, s, w.live);
      if b.kind.Received? && b.sourceHash == h {
        var t :| SendTo(t, b.to, h, w.live);
        assert s == t;
      }
      assert Tells(q, s, w'.live);
  }

  lemma ReceivedAfterRemove(w: World, b: AccBlock, h: Hash)
    requires Mirrors(w) && InOrder(w, Removed(b))
    ensures ReceivedIn(w.live - {b}, h) <==> ReceivedIn(w.live, h) && !IsReceiveOf(b, h)
  {
    if r :| r in w.live && IsReceiveOf(r, h) {
      if !IsReceiveOf(b, h) { assert r in w.live - {b}; }
    }
  }

  datatype History = Empty | Next(before: History, event: Event)

  ghost function WorldOf(hist: History): Option<World> {
    match hist
    case Empty => Some(World(map[], {}, {}))
    case Next(before, e) =>
      match WorldOf(before)
      case None => None
      case Some(w) => After(w, e)
  }

  // ---------------------------------------------------------------- every history

  /** Each event can happen, and none before the last has dereferenced nil. */
  ghost predicate Legal(hist: History) {
    match hist
    case Empty => true
    case Next(before, e) => Legal(before) && WorldOf(before).Some? && Possible(WorldOf(before).value, e)
  }

  predicate Touches(b: AccBlock, a: Addr, h: Hash) {
    b.to == a && ((b.kind.Send? && b.hash == h) || IsReceiveOf(b, h))
  }

  /** The last event on the request. */
  function LastOn(hist: History, a: Addr, h: Hash): Option<Event> {
    match hist
    case Empty => None
    case Next(before, e) => if Touches(e.block, a, h) then Some(e) else LastOn(before, a, h)
  }

  function MarkOf(e: Event): int {
    match e
    case Inserted(b) => if b.kind.Send? then 2 else 1
    case Removed(b) => if b.kind.Send? then 0 else 2
  }

  /** The request is there exactly if a send was heard of, and it stands as its last event left it. */
  ghost predicate MarkedAt(w: World, last: Option<Event>, a: Addr, h: Hash) {
    match last
    case None => GetReq(w.index, a, h).None? && forall s :: !SendTo(s, a, h, w.seen)
    case Some(e) =>
      && GetReq(w.index, a, h).Some?
      && var q := GetReq(w.index, a, h).value;
         && q.state == MarkOf(e)
         && (exists s :: SendTo(s, a, h, w.seen) && q.reqHash == h && q.amount == s.modified && q.from == s.from)
         && (e.Inserted? && !e.block.kind.Send? ==> q.acc == Some(AccountHashH(a, e.block.height, e.block.hash)))
         && Touches(e.block, a, h) && e.block in w.seen && (e.block in w.live <==> e.Inserted?)
  }

  /** Every block is known by its hash, and every receive there was heard of after its send. */
  ghost predicate Heard(w: World) {
    && w.live <= w.seen
    && (forall b, c | b in w.seen && c in w.seen && b.hash == c.hash :: b == c)
    && (forall r | r in w.live && r.kind.Received? :: exists s :: SendTo(s, r.to, r.sourceHash, w.seen))
  }

  ghost predicate Marked(w: World, hist: History) {
    Heard(w) && forall a, h {:trigger MarkedAt(w, LastOn(hist, a, h), a, h)} :: MarkedAt(w, LastOn(hist, a, h), a, h)
  }

  /** The event dereferences nil: a receive whose send was never addressed to the receiver. */
  ghost predicate Unheard(w: World, e: Event) {
    e.Inserted? && e.block.kind.Received? && forall s :: !SendTo(s, e.block.to, e.block.sourceHash, w.seen)
  }

  lemma EventCrashesExactly(hist: History, w: World, e: Event)
    requires Marked(w, hist) && Possible(w, e)
    ensures After(w, e).None? <==> Unheard(w, e)
  {
    var b := e.block;
    if !b.kind.Genesis? {
      var h := if b.kind.Send? then b.hash else b.sourceHash;
      assert MarkedAt(w, LastOn(hist, b.to, h), b.to, h);
      if e.Removed? && b.kind.Send? { assert SendTo(b, b.to, h, w.seen); }
    }
  }

  lemma EventMarks(hist: History, w: World, e: Event, a: Addr, h: Hash)
    requires Heard(w) && Possible(w, e) && After(w, e).Some? && MarkedAt(w, LastOn(hist, a, h), a, h)
    ensures MarkedAt(After(w, e).value, LastOn(Next(hist, e), a, h), a, h)
  {
    var w', b := After(w, e).value, e.block;
    if Touches(b, a, h) {
      if b.kind.Send? {
        if e.Inserted? { assert SendTo(b, a, h, w'.seen); }
      } else {
        assert GetReq(w.index, a, h).Some?;
      }
      if LastOn(hist, a, h).Some? {
        var s :| SendTo(s, a, h, w.seen);
        assert SendTo(s, a, h, w'.seen);
      }
    } else {
      assert GetReq(w'.index, a, h) == GetReq(w.index, a, h);
      assert forall s :: SendTo(s, a, h, w'.seen) <==> SendTo(s, a, h, w.seen);
    }
  }

  lemma EventHeard(hist: History, w: World, e: Event)
    requires Marked(w, hist) && Possible(w, e) && After(w, e).Some?
    ensures Heard(After(w, e).value)
  {
    EventCrashesExactly(hist, w, e);
    var w' := After(w, e).value;
    forall r | r in w'.live && r.kind.Received?
      ensures exists s :: SendTo(s, r.to, r.sourceHash, w'.seen)
    {
      var s :| SendTo(s, r.to, r.sourceHash, w.seen);
      assert SendTo(s, r.to, r.sourceHash, w'.seen);
    }
  }

  /** On every history, in whatever order blocks come and go, each request stands as its last event
      left it. */
  lemma {:induction false} EveryHistoryMarks(hist: History)
    requires Legal(hist) && WorldOf(hist).Some?
    ensures Marked(WorldOf(hist).value, hist)
  {
    match hist
    case Empty =>
    case Next(before, e) =>
      var w := WorldOf(before).value;
      EveryHistoryMarks(before);
      EventHeard(before, w, e);
      forall a, h ensures MarkedAt(WorldOf(hist).value, LastOn(hist, a, h), a, h) {
        assert MarkedAt(w, LastOn(before, a, h), a, h);
        EventMarks(before, w, e, a, h);
      }
  }

  /** A history ends by dereferencing nil exactly at a receive of a send never heard of as addressed
      to the receiver. */
  lemma HistoryCrashesExactly(before: History, e: Event)
    requires Legal(Next(before, e))
    ensures WorldOf(Next(before, e)).None? <==> Unheard(WorldOf(before).value, e)
  {
    EveryHistoryMarks(before);
    EventCrashesExactly(before, WorldOf(before).value, e);
  }

  /** The chains agree with the last event. */
  ghost predicate Settled(w: World, last: Option<Event>, a: Addr, h: Hash) {
    match last
    case None => true
    case Some(Inserted(b)) => if b.kind.Send? then !ReceivedIn(w.live, h) else exists s :: SendTo(s, a, h, w.live)
    case Some(Removed(b)) => b.kind.Send? || (!ReceivedIn(w.live, h) && exists s :: SendTo(s, a, h, w.live))
  }

  /** The index tells the truth about a request exactly when its last event was the removal of the
      send; or the insertion of the send, with no receive of it there; or the insertion of a
      receive, with the send still there; or the removal of a receive, with the send still there
      and no other receive. */
  lemma TellsTruthExactly(hist: History, a: Addr, h: Hash)
    requires Legal(hist) && WorldOf(hist).Some?
    ensures MirrorsAt(WorldOf(hist).value, a, h) <==> Settled(WorldOf(hist).value, LastOn(hist, a, h), a, h)
  {
    EveryHistoryMarks(hist);
    var w, last := WorldOf(hist).value, LastOn(hist, a, h);
    assert MarkedAt(w, last, a, h);
    if last.Some? {
      var s :| SendTo(s, a, h, w.seen);
      if t :| SendTo(t, a, h, w.live) { assert SendTo(t, a, h, w.seen) && t == s; }
      if s in w.live { assert SendTo(s, a, h, w.live); }
      TellsExactly(w, last.value, a, h, s);
    }
  }

  lemma TellsExactly(w: World, e: Event, a: Addr, h: Hash, s: AccBlock)
    requires Heard(w) && MarkedAt(w, Some(e), a, h) && SendTo(s, a, h, w.seen)
    ensures Tells(GetReq(w.index, a, h).value, s, w.live)
       <==> match e
            case Inserted(b) => if b.kind.Send? then !ReceivedIn(w.live, h) else s in w.live
            case Removed(b) => b.kind.Send? || (!ReceivedIn(w.live, h) && s in w.live)
  {
    var q, b := GetReq(w.index, a, h).value, e.block;
    if b.kind.Send? {
      assert b == s;
    } else if e.Inserted? {
      assert b in w.live && IsReceiveOf(b, h) && ReceivedIn(w.live, h);
    }
  }

  /** The list of open requests is of those whose last event was not the insertion of a receive. */
  lemma OpenRequestsAre(hist: History, a: Addr, h: Hash)
    requires Legal(hist) && WorldOf(hist).Some?
    ensures var w, last := WorldOf(hist).value, LastOn(hist, a, h);
            && (GetReq(w.index, a, h).Some? <==> exists s :: SendTo(s, a, h, w.seen))
            && (GetReq(w.index, a, h).Some? && GetReq(w.index, a, h).value.state != 1
                <==> last.Some? && !(last.value.Inserted? && last.value.block.kind.Received?))
  {
    EveryHistoryMarks(hist);
    assert MarkedAt(WorldOf(hist).value, LastOn(hist, a, h), a, h);
  }

  // ---------------------------------------------------------------- histories in good order

  ghost predicate Orderly(hist: History) {
    match hist
    case Empty => true
    case Next(before, e) => Orderly(before) && WorldOf(before).Some? && InOrder(WorldOf(before).value, e)
  }

  /** On every history in good order the index mirrors the chains. */
  lemma {:induction false} OrderlyHistoriesMirror(hist: History)
    requires Orderly(hist)
    ensures WorldOf(hist).Some? && Mirrors(WorldOf(hist).value)
  {
    match hist
    case Empty =>
      var w := WorldOf(hist).value;
      forall a, h ensures MirrorsAt(w, a, h) { }
    case Next(before, e) =>
      OrderlyHistoriesMirror(before);
      EventKeepsMirrors(WorldOf(before).value, e);
  }

  /** The open requests are then the unreceived sends addressed to the account, and besides them
      every send to it that was rolled back. */
  lemma OrderlyOpenRequestsAre(hist: History, a: Addr, h: Hash)
    requires Orderly(hist)
    ensures WorldOf(hist).Some?
    ensures var w := WorldOf(hist).value;
            (GetReq(w.index, a, h).Some? && GetReq(w.index, a, h).value.state != 1)
            <==> exists s :: SendTo(s, a, h, w.seen) && (s !in w.live || !ReceivedIn(w.live, h))
  {
    OrderlyHistoriesMirror(hist);
    var w := WorldOf(hist).value;
    assert MirrorsAt(w, a, h);
  }

  // ---------------------------------------------------------------- inputs on which it misleads

  function ASend(): AccBlock {
    AccBlock(1, "s", "a", "A", 150, -50, 0, "g", Send, "A", "B", "", -1)
  }

  function AReceive(height: int, hash: Hash): AccBlock {
    AccBlock(height, hash, "b", "B", 250, 50, 0, "g", Received, "A", "B", "s", 1)
  }

  /** One more event, as long as nothing is dereferenced that is not there. */
  lemma Goes(before: History, w: World, e: Event)
    requires Legal(before) && WorldOf(before) == Some(w) && Possible(w, e) && After(w, e).Some?
    ensures Legal(Next(before, e)) && WorldOf(Next(before, e)) == After(w, e)
  {
  }

  lemma Starts(s: AccBlock, r: AccBlock) returns (hist: History, w: World)
    requires s.kind.Send? && IsReceiveOf(r, s.hash) && r.to == s.to && r.hash != s.hash
    ensures Legal(hist) && WorldOf(hist) == Some(w) && hist == Next(Next(Empty, Inserted(s)), Inserted(r))
    ensures w.live == w.seen == {s, r} && GetReq(w.index, s.to, s.hash).Some?
  {
    var w0 := World(map[], {}, {});
    Goes(Empty, w0, Inserted(s));
    var w1 := After(w0, Inserted(s)).value;
    Goes(Next(Empty, Inserted(s)), w1, Inserted(r));
    hist, w := Next(Next(Empty, Inserted(s)), Inserted(r)), After(w1, Inserted(r)).value;
  }

  /** Accounts are rolled back in no particular order. When the sender comes first, the removal of
      the receive brings back the request of a send that is gone. */
  lemma SendRemovedFirst()
    ensures var hist := Next(Next(Next(Next(Empty, Inserted(ASend())), Inserted(AReceive(1, "r"))), Removed(ASend())), Removed(AReceive(1, "r")));
            && Legal(hist) && WorldOf(hist).Some? && WorldOf(hist).value.live == {}
            && GetReq(WorldOf(hist).value.index, "B", "s").Some?
            && GetReq(WorldOf(hist).value.index, "B", "s").value.state == 2
            && !MirrorsAt(WorldOf(hist).value, "B", "s")
  {
    var s, r := ASend(), AReceive(1, "r");
    assert s.hash != r.hash;
    var hist, w := Starts(s, r);
    Goes(hist, w, Removed(s));
    var w' := After(w, Removed(s)).value;
    Goes(Next(hist, Removed(s)), w', Removed(r));
    var last := Next(Next(hist, Removed(s)), Removed(r));
    OpenedAgain(last, r);
    TellsTruthExactly(last, "B", "s");
  }

  lemma OpenedAgain(hist: History, r: AccBlock)
    requires Legal(hist) && WorldOf(hist).Some? && hist.Next? && hist.event == Removed(r) && r.kind.Received?
    ensures LastOn(hist, r.to, r.sourceHash) == Some(Removed(r))
    ensures var q := GetReq(WorldOf(hist).value.index, r.to, r.sourceHash); q.Some? && q.value.state == 2
  {
    EveryHistoryMarks(hist);
    assert MarkedAt(WorldOf(hist).value, LastOn(hist, r.to, r.sourceHash), r.to, r.sourceHash);
  }

  /** A send received twice is open again as soon as one of the receives is removed. */
  lemma OneOfTwoReceivesRemoved()
    ensures var hist := Next(Next(Next(Next(Empty, Inserted(ASend())), Inserted(AReceive(1, "r"))), Inserted(AReceive(2, "t"))), Removed(AReceive(2, "t")));
            && Legal(hist) && WorldOf(hist).Some? && AReceive(1, "r") in WorldOf(hist).value.live
            && GetReq(WorldOf(hist).value.index, "B", "s").Some?
            && GetReq(WorldOf(hist).value.index, "B", "s").value.state == 2
            && !MirrorsAt(WorldOf(hist).value, "B", "s")
  {
    var s, r, t := ASend(), AReceive(1, "r"), AReceive(2, "t");
    assert s.hash != r.hash && s.hash != t.hash && r.hash != t.hash;
    var hist, w := Starts(s, r);
    Goes(hist, w, Inserted(t));
    var w' := After(w, Inserted(t)).value;
    Goes(Next(hist, Inserted(t)), w', Removed(t));
    var last := Next(Next(hist, Inserted(t)), Removed(t));
    OpenedAgain(last, t);
    assert r in WorldOf(last).value.live && IsReceiveOf(r, "s");
    TellsTruthExactly(last, "B", "s");
  }

  /** A send that was rolled back stays in the list of open requests. */
  lemma RolledBackSendIsOpen()
    ensures var hist := Next(Next(Empty, Inserted(ASend())), Removed(ASend()));
            && Orderly(hist) && WorldOf(hist).Some? && WorldOf(hist).value.live == {}
            && GetReq(WorldOf(hist).value.index, "B", "s").Some?
            && GetReq(WorldOf(hist).value.index, "B", "s").value.state == 0
  {
    var s, w0 := ASend(), World(map[], {}, {});
    Goes(Empty, w0, Inserted(s));
    Goes(Next(Empty, Inserted(s)), After(w0, Inserted(s)).value, Removed(s));
  }
}
