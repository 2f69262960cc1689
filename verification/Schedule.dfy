/** The slot schedule: whose turn it is to produce a snapshot block, second by second.

    A round gives every member one slot of `interval` seconds; rounds follow each other from genesis
    on. Times are in whole seconds; what the source computes in 32 bits wraps here too. */
module Schedule {
  import opened Blocks

  datatype Info = Info(genesis: int, memberCnt: int, interval: int)

  datatype Plan = Plan(sTime: int, member: string)

  datatype Election = Election(plans: seq<Plan>, sTime: int, eTime: int, index: int)

  const TWO_31: int := 0x8000_0000
  const TWO_32: int := 0x1_0000_0000

  function Wrap32(x: int): int {
    (x + TWO_31) % TWO_32 - TWO_31
  }

  predicate Fits32(x: int) {
    -TWO_31 <= x < TWO_31
  }

  /** Division as the source's machine does it: toward zero. */
  function TruncDiv(a: int, b: int): int
    requires b > 0
  {
    if a >= 0 then a / b else -(-a / b)
  }

  /** A configuration that makes sense: at least one member and one second, and a round that can be
      counted in 32 bits. */
  ghost predicate InfoOk(info: Info) {
    0 < info.memberCnt && 0 < info.interval && Fits32(RoundLength(info))
  }

  function RoundLength(info: Info): int {
    info.interval * info.memberCnt
  }

  /** `time2Index`. */
  function TimeToIndex(info: Info, t: int): int
    requires InfoOk(info)
  {
    Wrap32(TruncDiv(t - info.genesis, Wrap32(RoundLength(info))))
  }

  function RoundStart(info: Info, index: int): int {
    info.genesis + Wrap32(Wrap32(RoundLength(info)) * index)
  }

  /** What `genPlan` makes, slot by slot. */
  ghost predicate IsPlan(info: Info, index: int, members: seq<string>, e: Election) {
    && e.index == index && e.sTime == RoundStart(info, index) && |e.plans| == |members|
    && (forall i | 0 <= i < |members| :: e.plans[i] == Plan(e.sTime + i * info.interval, members[i]))
    && e.eTime == e.sTime + |members| * info.interval
  }

  lemma PlanIsUnique(info: Info, index: int, members: seq<string>, e: Election, f: Election)
    requires IsPlan(info, index, members, e) && IsPlan(info, index, members, f)
    ensures e == f
  {
    assert e.plans == f.plans;
  }

  /** `genPlan`. */
  method GenPlan(info: Info, index: int, members: seq<string>) returns (e: Election)
    ensures IsPlan(info, index, members, e)
  {
    var start := info.genesis + Wrap32(Wrap32(info.interval * info.memberCnt) * index);
    var sTime, plans: seq<Plan> := start, [];
    for k := 0 to |members|
      invariant |plans| == k && sTime == start + k * info.interval
      invariant forall i | 0 <= i < k :: plans[i] == Plan(start + i * info.interval, members[i])
    {
      plans := plans + [Plan(sTime, members[k])];
      sTime := sTime + info.interval;
    }
    e := Election(plans, start, sTime, index);
  }

  // ---------------------------------------------------------------- arithmetic

  lemma WrapFits(x: int)
    ensures Fits32(Wrap32(x)) && (Wrap32(x) == x <==> Fits32(x))
    ensures exists w :: Wrap32(x) == x + w * TWO_32 && (w == 0 <==> Fits32(x))
  {
    var w := -((x + TWO_31) / TWO_32);
    assert Wrap32(x) == x + w * TWO_32;
  }

  lemma DivModUnique(d: int, p: int, k: int, r: int)
    requires p > 0 && d == k * p + r && 0 <= r < p
    ensures d / p == k && d % p == r
  {
    var q, m := d / p, d % p;
    assert d == q * p + m;
    assert (k - q) * p == k * p - q * p == m - r;
    if q < k {
      MulAtLeast(k - q, p);
      assert false;
    }
    if q > k {
      assert (q - k) * p == -((k - q) * p);
      MulAtLeast(q - k, p);
      assert false;
    }
  }

  lemma MulAtLeast(n: int, p: int)
    requires n >= 1 && p >= 0
    ensures n * p >= p
  {
  }

  /** The slot within the round: dividing by the slot length first and then taking the position in
      the round is the same as the other way round. */
  lemma SlotInRound(d: nat, interval: int, cnt: int)
    requires interval > 0 && cnt > 0 && interval * cnt > 0
    ensures (d / interval) % cnt == (d % (interval * cnt)) / interval
    ensures d % interval == (d % (interval * cnt)) % interval
  {
    var p := interval * cnt;
    var q, s := d / interval, d % interval;
    assert d == q * interval + s;
    var k, j := q / cnt, q % cnt;
    assert q == k * cnt + j;
    assert q * interval == (k * cnt + j) * interval == k * cnt * interval + j * interval;
    assert k * cnt * interval == k * p by { assert cnt * interval == p; MulAssoc(k, cnt, interval); }
    var r := j * interval + s;
    assert d == k * p + r;
    assert 0 <= r < p by {
      assert j * interval <= (cnt - 1) * interval by { MulMonotone(j, cnt - 1, interval); }
      assert (cnt - 1) * interval == p - interval;
    }
    DivModUnique(d, p, k, r);
    DivModUnique(r, interval, j, s);
  }

  lemma MulAssoc(a: int, b: int, c: int)
    ensures a * b * c == a * (b * c)
  {
  }

  lemma MulMonotone(a: int, b: int, c: int)
    requires 0 <= a <= b && c > 0
    ensures 0 <= a * c <= b * c
  {
  }

  // ---------------------------------------------------------------- rounds tile time

  ghost predicate Contains(info: Info, n: nat, index: int, t: int) {
    RoundStart(info, index) <= t < RoundStart(info, index) + n * info.interval
  }

  lemma StartOfRound(info: Info, k: int)
    requires InfoOk(info) && Fits32(k * RoundLength(info))
    ensures RoundLength(info) >= 1 && RoundStart(info, k) == info.genesis + k * RoundLength(info)
  {
    MulAtLeast(info.memberCnt, info.interval);
    assert RoundLength(info) * k == k * RoundLength(info);
  }

  /** As long as their starts can be counted in 32 bits, consecutive rounds meet without gap or
      overlap exactly when there are as many members as the configuration counts. */
  lemma RoundsMeetExactly(info: Info, n: nat, k: nat)
    requires InfoOk(info) && Fits32((k + 1) * RoundLength(info))
    ensures RoundStart(info, k) + n * info.interval == RoundStart(info, k + 1) <==> n == info.memberCnt
  {
    var p := RoundLength(info);
    StartOfRound(info, k + 1);
    assert (k + 1) * p == k * p + p;
    assert 0 <= k * p by { if k > 0 { MulAtLeast(k, p); } }
    StartOfRound(info, k);
    assert (n - info.memberCnt) * info.interval == n * info.interval - p;
    if n != info.memberCnt { NotZero(n - info.memberCnt, info.interval); }
  }

  lemma NotZero(a: int, b: int)
    requires a != 0 && b > 0
    ensures a * b != 0
  {
    if a > 0 { MulAtLeast(a, b); } else { MulAtLeast(-a, b); }
  }

  /** The index looked up for a time is the one round that contains it. */
  lemma TimeToIndexExactly(info: Info, t: int, k: nat)
    requires InfoOk(info) && 0 <= t - info.genesis < TWO_31 && Fits32(k * RoundLength(info))
    ensures TimeToIndex(info, t) == k <==> Contains(info, info.memberCnt, k, t)
  {
    var p, d := RoundLength(info), t - info.genesis;
    StartOfRound(info, k);
    IndexIsQuotient(info, t);
    if k * p <= d < k * p + p { DivModUnique(d, p, k, d - k * p); }
  }

  lemma QuotientBound(d: nat, p: int)
    requires p >= 1
    ensures 0 <= d / p <= d && (d / p) * p <= d < (d / p) * p + p
  {
    assert d == (d / p) * p + d % p;
    if d / p > 0 { assert (d / p) * p >= d / p by { MulMonotone(1, p, d / p); } }
  }

  /** Exactly which times are looked up in a round that contains them: before genesis only the
      round boundaries, after it all whose round's start still fits 32 bits. */
  lemma LookupIsRightExactly(info: Info, t: int)
    requires InfoOk(info)
    ensures var d, p := t - info.genesis, RoundLength(info);
            Contains(info, info.memberCnt, TimeToIndex(info, t), t)
            <==> Fits32(TruncDiv(d, p) * p) && (d >= 0 || d % p == 0)
  {
    var p, d := RoundLength(info), t - info.genesis;
    MulAtLeast(info.memberCnt, info.interval);
    var k := TruncDiv(d, p);
    if Fits32(k) {
      NearLookup(info, t);
    } else {
      TruncatedMultiple(d, p);
      FarLookup(info, d, k, TimeToIndex(info, t));
    }
  }

  lemma NearLookup(info: Info, t: int)
    requires InfoOk(info) && Fits32(TruncDiv(t - info.genesis, RoundLength(info)))
    ensures var d, p := t - info.genesis, RoundLength(info);
            Contains(info, info.memberCnt, TimeToIndex(info, t), t)
            <==> Fits32(TruncDiv(d, p) * p) && (d >= 0 || d % p == 0)
  {
    var p, d := RoundLength(info), t - info.genesis;
    MulAtLeast(info.memberCnt, info.interval);
    var k := TruncDiv(d, p);
    WrapFits(p);
    WrapFits(k);
    WrapFits(k * p);
    MulCommutes(p, k);
    MulCommutes(info.memberCnt, info.interval);
    TruncatedMultiple(d, p);
    WrappedRound(d, k * p, p);
  }

  lemma MulCommutes(a: int, b: int)
    ensures a * b == b * a
  {
  }

  /** Whether a round that starts at the wrapped multiple s of its length p contains d. */
  lemma WrappedRound(d: int, s: int, p: int)
    requires 1 <= p && Fits32(p) && s - p < d < s + p && (d >= 0 ==> s <= d) && (d < 0 ==> d <= s && (d == s <==> d % p == 0))
    ensures Wrap32(s) <= d < Wrap32(s) + p <==> Fits32(s) && (d >= 0 || d % p == 0)
  {
    WrapFits(s);
    var w :| Wrap32(s) == s + w * TWO_32 && (w == 0 <==> Fits32(s));
  }

  /** One second before genesis is looked up in the first round, which starts at genesis; and with
      one member and one-second slots a time 2^31 seconds after it in a round that starts before it. */
  lemma WrongLookups(info: Info)
    requires InfoOk(info) && RoundLength(info) > 1
    ensures !Contains(info, info.memberCnt, TimeToIndex(info, info.genesis - 1), info.genesis - 1)
    ensures var second := Info(info.genesis, 1, 1);
            && InfoOk(second)
            && !Contains(second, 1, TimeToIndex(second, info.genesis + TWO_31), info.genesis + TWO_31)
  {
    LookupIsRightExactly(info, info.genesis - 1);
    LookupIsRightExactly(Info(info.genesis, 1, 1), info.genesis + TWO_31);
  }

  /** A time so far off that its round cannot be counted in 32 bits is in no round whose start is. */
  lemma FarLookup(info: Info, d: int, k: int, index: int)
    requires InfoOk(info) && !Fits32(k)
    requires var p := RoundLength(info); p >= 1 && k * p - p < d < k * p + p && (d >= 0 ==> k * p <= d) && (d < 0 ==> d <= k * p)
    ensures !Contains(info, info.memberCnt, index, info.genesis + d) && !Fits32(k * RoundLength(info))
  {
    var p := RoundLength(info);
    WrapFits(p * index);
    if k >= TWO_31 {
      MulMonotone(TWO_31, k, p);
      assert TWO_31 * p >= TWO_31 + p - 1;
    } else {
      MulMonotone(TWO_31 + 1, -k, p);
      assert (-k) * p == -(k * p);
      assert k * p <= -(TWO_31 + 1);
    }
  }

  lemma TruncatedMultiple(d: int, p: int)
    requires p >= 1
    ensures var s := TruncDiv(d, p) * p;
            s - p < d < s + p && (d >= 0 ==> s <= d) && (d < 0 ==> d <= s && (d == s <==> d % p == 0))
  {
    if d >= 0 {
      QuotientBound(d, p);
    } else {
      QuotientBound(-d, p);
      assert TruncDiv(d, p) * p == -((-d / p) * p);
      NegativeMod(d, p);
    }
  }

  lemma NegativeMod(d: int, p: int)
    requires d < 0 && p >= 1
    ensures d % p == 0 <==> (-d / p) * p == -d
  {
    var q := -d / p;
    if d % p == 0 {
      var m := d / p;
      assert d == m * p;
      assert -d == (-m) * p + 0;
      DivModUnique(-d, p, -m, 0);
    }
    if q * p == -d {
      assert d == (-q) * p + 0;
      DivModUnique(d, p, -q, 0);
    }
  }

  // ---------------------------------------------------------------- the producer check

  /** The signer's first slot in the round is the time. */
  ghost predicate FirstSlotIs(info: Info, start: int, members: seq<string>, signer: string, t: int) {
    exists i :: 0 <= i < |members| && members[i] == signer && (forall j | 0 <= j < i :: members[j] != signer)
                && start + i * info.interval == t
  }

  /** The first plan of the signer starts at the time. */
  ghost predicate Decides(e: Election, signer: string, t: int) {
    exists i :: 0 <= i < |e.plans| && e.plans[i].member == signer && e.plans[i].sTime == t
                && forall j | 0 <= j < i :: e.plans[j].member != signer
  }

  /** `verifyProducer` on the plan of a round: the first plan of the signer decides. */
  method CheckProducer(e: Election, signer: string, t: int) returns (ok: bool)
    ensures ok <==> Decides(e, signer, t)
  {
    for k := 0 to |e.plans|
      invariant forall j | 0 <= j < k :: e.plans[j].member != signer
    {
      if e.plans[k].member == signer {
        return e.plans[k].sTime == t;
      }
    }
    ok := false;
  }

  /** Whose turn it is at t: slots are dealt round-robin from genesis. */
  function SlotOf(info: Info, t: int): int
    requires InfoOk(info)
  {
    ((t - info.genesis) / info.interval) % info.memberCnt
  }

  /** The turn is the signer's: t starts a slot, and the slot is the signer's first. */
  ghost predicate Turn(info: Info, members: seq<string>, signer: string, t: int)
    requires InfoOk(info)
  {
    && (t - info.genesis) % info.interval == 0 && SlotOf(info, t) < |members|
    && members[SlotOf(info, t)] == signer && forall j | 0 <= j < SlotOf(info, t) :: members[j] != signer
  }

  /** The check against the round looked up accepts exactly the signer whose turn it is, however
      many members there are. */
  lemma AcceptsExactlyTurn(info: Info, members: seq<string>, signer: string, t: int)
    requires InfoOk(info) && 0 <= t - info.genesis < TWO_31
    ensures FirstSlotIs(info, RoundStart(info, TimeToIndex(info, t)), members, signer, t) <==> Turn(info, members, signer, t)
  {
    if FirstSlotIs(info, RoundStart(info, TimeToIndex(info, t)), members, signer, t) { AcceptedIsTurn(info, members, signer, t); }
    if Turn(info, members, signer, t) { TurnIsAccepted(info, members, signer, t); }
  }

  lemma AcceptedIsTurn(info: Info, members: seq<string>, signer: string, t: int)
    requires InfoOk(info) && 0 <= t - info.genesis < TWO_31
    requires FirstSlotIs(info, RoundStart(info, TimeToIndex(info, t)), members, signer, t)
    ensures Turn(info, members, signer, t)
  {
    RoundOf(info, t);
    SlotInRound(t - info.genesis, info.interval, info.memberCnt);
    var i :| 0 <= i < |members| && members[i] == signer && (forall j | 0 <= j < i :: members[j] != signer)
              && RoundStart(info, TimeToIndex(info, t)) + i * info.interval == t;
    DivModUnique((t - info.genesis) % RoundLength(info), info.interval, i, 0);
  }

  lemma TurnIsAccepted(info: Info, members: seq<string>, signer: string, t: int)
    requires InfoOk(info) && 0 <= t - info.genesis < TWO_31 && Turn(info, members, signer, t)
    ensures FirstSlotIs(info, RoundStart(info, TimeToIndex(info, t)), members, signer, t)
  {
    RoundOf(info, t);
    var start, r := RoundStart(info, TimeToIndex(info, t)), (t - info.genesis) % RoundLength(info);
    SlotInRound(t - info.genesis, info.interval, info.memberCnt);
    assert r == (r / info.interval) * info.interval + r % info.interval;
    assert start + SlotOf(info, t) * info.interval == t;
  }

  /** How far into the round looked up the time lies. */
  lemma RoundOf(info: Info, t: int)
    requires InfoOk(info) && 0 <= t - info.genesis < TWO_31
    ensures RoundLength(info) > 0
    ensures t == RoundStart(info, TimeToIndex(info, t)) + (t - info.genesis) % RoundLength(info)
  {
    var p, d := RoundLength(info), t - info.genesis;
    IndexIsQuotient(info, t);
    StartOfRound(info, d / p);
    Divided(d, p);
  }

  lemma IndexIsQuotient(info: Info, t: int)
    requires InfoOk(info) && 0 <= t - info.genesis < TWO_31
    ensures var d, p := t - info.genesis, RoundLength(info);
            p >= 1 && 0 <= d / p <= d && (d / p) * p <= d < (d / p) * p + p && TimeToIndex(info, t) == d / p
  {
    var d, p := t - info.genesis, RoundLength(info);
    assert p >= 1 by { MulAtLeast(info.memberCnt, info.interval); }
    QuotientBound(d, p);
    WrapsToItself(p);
    WrapsToItself(d / p);
  }

  lemma WrapsToItself(x: int)
    requires Fits32(x)
    ensures Wrap32(x) == x
  {
  }

  lemma Divided(d: int, p: int)
    requires p > 0
    ensures d == (d / p) * p + d % p
  {
  }

  /** With distinct members, one for every slot: exactly one signer is accepted at the start of a
      slot, and none at any other second. */
  lemma OneProducerPerSlot(info: Info, members: seq<string>, t: int)
    requires InfoOk(info) && 0 <= t - info.genesis < TWO_31 && |members| == info.memberCnt
    requires forall i, j | 0 <= i < j < |members| :: members[i] != members[j]
    ensures forall signer :: FirstSlotIs(info, RoundStart(info, TimeToIndex(info, t)), members, signer, t)
                        <==> (t - info.genesis) % info.interval == 0 && signer == members[SlotOf(info, t)]
  {
    forall signer
      ensures FirstSlotIs(info, RoundStart(info, TimeToIndex(info, t)), members, signer, t)
         <==> (t - info.genesis) % info.interval == 0 && signer == members[SlotOf(info, t)]
    {
      AcceptsExactlyTurn(info, members, signer, t);
    }
  }

  // ---------------------------------------------------------------- the teller

  lemma OneLess(m: map<int, Election>, k: int)
    requires k in m
    ensures |m - {k}| == |m| - 1
  {
    assert (m - {k}).Keys == m.Keys - {k};
    assert |m.Keys - {k}| == |m.Keys| - 1;
  }

  /** The loop of `removePrevious`. */
  method Forget(his: map<int, Election>, rtime: int) returns (his': map<int, Election>, n: int)
    ensures n == |his| - |his'|
    ensures forall k :: k in his' <==> k in his && his[k].eTime >= rtime
    ensures forall k | k in his' :: his'[k] == his[k]
  {
    his', n := his, 0;
    var left := his.Keys;
    while left != {}
      invariant left <= his'.Keys
      invariant forall k | k in his' :: k in his && his'[k] == his[k]
      invariant forall k | k in his && k !in his' :: his[k].eTime < rtime
      invariant forall k | k in his' && k !in left :: his[k].eTime >= rtime
      invariant n == |his| - |his'|
      decreases |left|
    {
      EmptyOrNot(left);
      var k :| k in left;
      if his'[k].eTime < rtime {
        OneLess(his', k);
        his' := his' - {k};
        n := n + 1;
      }
      left := left - {k};
    }
  }

  class Teller {
    const info: Info
    const members: seq<string>
    var electionHis: map<int, Election>

    /** Every election remembered is the one that would be computed afresh. */
    ghost predicate Valid()
      reads this
    {
      InfoOk(info) && forall k | k in electionHis :: IsPlan(info, k, members, electionHis[k])
    }

    constructor (i: Info, m: seq<string>)
      requires InfoOk(i)
      ensures Valid() && info == i && members == m && electionHis == map[]
    {
      info, members, electionHis := i, m, map[];
    }

    method ElectionIndex(index: int) returns (e: Election)
      requires Valid()
      modifies this
      ensures Valid() && IsPlan(info, index, members, e)
      ensures electionHis == old(electionHis)[index := e]
    {
      if index in electionHis {
        e := electionHis[index];
      } else {
        e := GenPlan(info, index, members);
        electionHis := electionHis[index := e];
      }
    }

    method ElectionTime(t: int) returns (e: Election)
      requires Valid()
      modifies this
      ensures Valid() && IsPlan(info, TimeToIndex(info, t), members, e)
      ensures electionHis == old(electionHis)[TimeToIndex(info, t) := e]
    {
      e := ElectionIndex(TimeToIndex(info, t));
    }

    /** Forgets exactly the rounds that ended before the time. */
    method RemovePrevious(rtime: int) returns (n: int)
      requires Valid()
      modifies this
      ensures Valid() && n == |old(electionHis)| - |electionHis|
      ensures forall k :: k in electionHis <==> k in old(electionHis) && old(electionHis)[k].eTime >= rtime
      ensures forall k | k in electionHis :: electionHis[k] == old(electionHis)[k]
    {
      electionHis, n := Forget(electionHis, rtime);
    }

    /** `verifyProducer`: whatever is remembered, the answer is whose turn it is. */
    method VerifyProducer(signer: string, t: int) returns (ok: bool)
      requires Valid()
      modifies this
      ensures Valid()
      ensures ok <==> FirstSlotIs(info, RoundStart(info, TimeToIndex(info, t)), members, signer, t)
      ensures 0 <= t - info.genesis < TWO_31 ==> (ok <==> Turn(info, members, signer, t))
    {
      var e := ElectionTime(t);
      ok := CheckProducer(e, signer, t);
      PlansDecide(info, members, signer, t, e);
    }
  }

  lemma PlansDecide(info: Info, members: seq<string>, signer: string, t: int, e: Election)
    requires InfoOk(info) && IsPlan(info, TimeToIndex(info, t), members, e)
    ensures Decides(e, signer, t) <==> FirstSlotIs(info, e.sTime, members, signer, t)
    ensures 0 <= t - info.genesis < TWO_31 ==> (Decides(e, signer, t) <==> Turn(info, members, signer, t))
  {
    if 0 <= t - info.genesis < TWO_31 { AcceptsExactlyTurn(info, members, signer, t); }
    if FirstSlotIs(info, e.sTime, members, signer, t) {
      var i :| 0 <= i < |members| && members[i] == signer && (forall j | 0 <= j < i :: members[j] != signer)
                && e.sTime + i * info.interval == t;
      assert e.plans[i].member == signer;
    }
  }
}
