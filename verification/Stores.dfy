/** The block store: maps by height, by hash and by source, one map of heads for all chains, and
    the keys that keep the accounts in it apart. */
module Stores {
  import opened Blocks
  import opened Accounts

  datatype HashHeight = HashHeight(hash: Hash, height: int)

  datatype AccountHashH = AccountHashH(addr: Addr, height: int, hash: Hash)

  datatype SnapBlock = SnapBlock(height: int, hash: Hash, preHash: Hash, signer: Addr, accounts: seq<AccountHashH>)

  // ---------------------------------------------------------------- keys

  function Digits(n: nat): (s: string)
    ensures s != [] && forall i | 0 <= i < |s| :: '0' <= s[i] <= '9'
  {
    var d := [('0' as int + n % 10) as char];
    if n < 10 then d else Digits(n / 10) + d
  }

  function Itoa(n: int): string {
    if n < 0 then "-" + Digits(-n) else Digits(n)
  }

  function GenKey(a: Addr, h: int): string {
    a + "_" + Itoa(h)
  }

  lemma {:induction false} DigitsInjective(m: nat, n: nat)
    requires Digits(m) == Digits(n)
    ensures m == n
  {
    var s, t := Digits(m), Digits(n);
    assert s[|s| - 1] == ('0' as int + m % 10) as char && t[|t| - 1] == ('0' as int + n % 10) as char;
    if m >= 10 {
      assert s[..|s| - 1] == Digits(m / 10);
    }
    if n >= 10 {
      assert t[..|t| - 1] == Digits(n / 10);
    }
    if m >= 10 && n >= 10 {
      DigitsInjective(m / 10, n / 10);
    }
  }

  lemma ItoaInjective(m: int, n: int)
    requires Itoa(m) == Itoa(n)
    ensures m == n
  {
    assert Itoa(m)[0] == '-' <==> m < 0;
    assert Itoa(n)[0] == '-' <==> n < 0;
    if m < 0 {
      assert Itoa(m)[1..] == Digits(-m) && Itoa(n)[1..] == Digits(-n);
      DigitsInjective(-m, -n);
    } else {
      DigitsInjective(m, n);
    }
  }

  lemma ItoaHasNoUnderscore(n: int, i: nat)
    requires i < |Itoa(n)|
    ensures Itoa(n)[i] != '_'
  {
  }

  /** Keys of different accounts or heights differ, whatever the addresses look like. */
  lemma GenKeyInjective(a: Addr, h: int, b: Addr, k: int)
    ensures GenKey(a, h) == GenKey(b, k) <==> a == b && h == k
  {
    if GenKey(a, h) == GenKey(b, k) {
      KeysSplitAlike(a, h, b, k);
      KeysSplitAlike(b, k, a, h);
      var s := GenKey(a, h);
      assert s[..|a|] == a && GenKey(b, k)[..|b|] == b;
      assert s[|a| + 1..] == Itoa(h) && GenKey(b, k)[|b| + 1..] == Itoa(k);
      ItoaInjective(h, k);
    }
  }

  lemma KeysSplitAlike(a: Addr, h: int, b: Addr, k: int)
    requires GenKey(a, h) == GenKey(b, k)
    ensures |a| <= |b|
  {
    if |a| > |b| {
      assert GenKey(a, h)[|a|] == '_';
      assert GenKey(b, k)[|a|] == Itoa(k)[|a| - |b| - 1];
      ItoaHasNoUnderscore(k, |a| - |b| - 1);
    }
  }

  // ---------------------------------------------------------------- what the maps describe

  /** Under the account's keys the by-height map holds exactly the chain. */
  ghost predicate HoldsHeights(byHeight: map<string, AccBlock>, a: Addr, chain: seq<AccBlock>) {
    && (forall h: int {:trigger GenKey(a, h)} :: GenKey(a, h) in byHeight <==> 0 <= h < |chain|)
    && (forall h | 0 <= h < |chain| :: GenKey(a, h) in byHeight && byHeight[GenKey(a, h)] == chain[h])
  }

  ghost predicate HoldsHashes(byHash: map<Hash, AccBlock>, chain: seq<AccBlock>) {
    forall h | 0 <= h < |chain| :: chain[h].hash in byHash && byHash[chain[h].hash] == chain[h]
  }

  lemma KeysApart(byHeight: map<string, AccBlock>, a: Addr, n: int)
    ensures forall h: int {:trigger GenKey(a, h)} :: GenKey(a, h) == GenKey(a, n) <==> h == n
  {
    forall h: int ensures GenKey(a, h) == GenKey(a, n) <==> h == n { GenKeyInjective(a, h, a, n); }
  }

  lemma PutHolds(byHeight: map<string, AccBlock>, a: Addr, chain: seq<AccBlock>, b: AccBlock)
    requires HoldsHeights(byHeight, a, chain) && b.height == |chain|
    ensures HoldsHeights(byHeight[GenKey(a, b.height) := b], a, chain + [b])
  {
    KeysApart(byHeight, a, b.height);
  }

  lemma DeleteHolds(byHeight: map<string, AccBlock>, a: Addr, chain: seq<AccBlock>)
    requires HoldsHeights(byHeight, a, chain) && chain != []
    ensures HoldsHeights(byHeight - {GenKey(a, |chain| - 1)}, a, chain[..|chain| - 1])
  {
    var n := |chain| - 1;
    KeysApart(byHeight, a, n);
  }

  /** What one account stores or deletes, no other account notices. */
  lemma OthersUnaffected(byHeight: map<string, AccBlock>, a: Addr, h: int, blk: AccBlock, b: Addr, chain: seq<AccBlock>)
    requires a != b && HoldsHeights(byHeight, b, chain)
    ensures HoldsHeights(byHeight[GenKey(a, h) := blk], b, chain)
    ensures HoldsHeights(byHeight - {GenKey(a, h)}, b, chain)
  {
    forall k: int ensures GenKey(b, k) != GenKey(a, h) { GenKeyInjective(b, k, a, h); }
  }

  /** The key the snapshot head is kept under, in the same map as the account heads. */
  const SNAPSHOT_HEAD_KEY: string := "s_head_key"

  class BlockStore {
    var snapshotHeight: map<int, SnapBlock>
    var snapshotHash: map<Hash, SnapBlock>
    var accountHeight: map<string, AccBlock>
    var accountHash: map<Hash, AccBlock>
    var sourceHash: map<Hash, AccBlock>
    var head: map<string, HashHeight>

    constructor ()
      ensures snapshotHeight == map[] && snapshotHash == map[] && accountHeight == map[] && accountHash == map[]
      ensures sourceHash == map[] && head == map[]
    {
      snapshotHeight, snapshotHash, accountHeight, accountHash, sourceHash, head := map[], map[], map[], map[], map[], map[];
    }

    method PutAccount(a: Addr, b: AccBlock)
      modifies `accountHeight, `accountHash
      ensures accountHeight == old(accountHeight)[GenKey(a, b.height) := b]
      ensures accountHash == old(accountHash)[b.hash := b]
    {
      accountHash := accountHash[b.hash := b];
      accountHeight := accountHeight[GenKey(a, b.height) := b];
    }

    method DeleteAccount(a: Addr, h: HashHeight)
      modifies `accountHeight, `accountHash
      ensures accountHeight == old(accountHeight) - {GenKey(a, h.height)}
      ensures accountHash == old(accountHash) - {h.hash}
    {
      accountHash := accountHash - {h.hash};
      accountHeight := accountHeight - {GenKey(a, h.height)};
    }

    function GetAccountByHeight(a: Addr, h: int): Option<AccBlock>
      reads this
    {
      if GenKey(a, h) in accountHeight then Some(accountHeight[GenKey(a, h)]) else None
    }

    /** The lookup by height reads the chain. */
    lemma ReadsChain(a: Addr, chain: seq<AccBlock>, h: int)
      requires HoldsHeights(accountHeight, a, chain)
      ensures GetAccountByHeight(a, h) == ByHeight(map[a := chain], a, h)
    {
    }

    function GetAccountByHash(hash: Hash): Option<AccBlock>
      reads this
    {
      if hash in accountHash then Some(accountHash[hash]) else None
    }

    method SetHead(key: string, h: Option<HashHeight>)
      modifies `head
      ensures head == match h case None => old(head) - {key} case Some(v) => old(head)[key := v]
    {
      match h
      case None => head := head - {key};
      case Some(v) => head := head[key := v];
    }
  }
}
