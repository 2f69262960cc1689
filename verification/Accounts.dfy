/** Account chains, the verifier's decision on an account block, and what a ledger of verified
    blocks looks like.

    A ledger maps each address to its chain, the block at height i at index i. */
module Accounts {
  import opened Blocks

  type Addr = string

  datatype Kind = Genesis | Send | Received

  datatype AccBlock = AccBlock(
    height: int, hash: Hash, preHash: Hash, signer: Addr,
    amount: int, modified: int, snapshotHeight: int, snapshotHash: Hash,
    kind: Kind, from: Addr, to: Addr, sourceHash: Hash, sourceHeight: int)

  predicate IsReceiveOf(r: AccBlock, source: Hash) {
    r.kind.Received? && r.sourceHash == source
  }

  type Ledger = map<Addr, seq<AccBlock>>

  datatype Verdict = PENDING | FAIL | SUCCESS

  // ---------------------------------------------------------------- reading the store

  function Head(l: Ledger, a: Addr): Option<AccBlock> {
    if a in l && l[a] != [] then Some(l[a][|l[a]| - 1]) else None
  }

  function ByHeight(l: Ledger, a: Addr, h: int): Option<AccBlock> {
    if a in l && 0 <= h < |l[a]| then Some(l[a][h]) else None
  }

  /** `getBySourceBlock`: from the head down, and not looking at height 0. */
  function BySource(c: seq<AccBlock>, n: nat, source: Hash): (r: Option<nat>)
    requires n <= |c|
    ensures r.Some? ==> 0 < r.value < n
  {
    if n <= 1 then None
    else if c[n - 1].kind.Received? && c[n - 1].sourceHash == source then Some(n - 1)
    else BySource(c, n - 1, source)
  }

  function ReceivedBefore(l: Ledger, a: Addr, source: Hash): bool {
    a in l && BySource(l[a], |l[a]|, source).Some?
  }

  /** The block each account's store answers as its head, for the accounts that have one. */
  type Heads = map<Addr, AccBlock>

  /** The head is a block that is no longer stored. */
  predicate StaleHead(l: Ledger, heads: Heads, a: Addr)
    requires a in heads
  {
    a !in l || heads[a].height >= |l[a]|
  }

  /** The head is the top of the account's chain, or was above it before it was removed. */
  ghost predicate HeadOf(l: Ledger, heads: Heads, a: Addr)
    requires a in heads
  {
    && heads[a].height >= 0
    && (a in l ==>
          && l[a] != [] && |l[a]| - 1 <= heads[a].height
          && l[a][|l[a]| - 1].snapshotHeight <= heads[a].snapshotHeight
          && (heads[a].height == |l[a]| - 1 ==> heads[a] == l[a][|l[a]| - 1]))
  }

  ghost predicate HeadsOk(l: Ledger, heads: Heads) {
    l.Keys <= heads.Keys && forall a {:trigger HeadOf(l, heads, a)} | a in heads :: HeadOf(l, heads, a)
  }

  // ---------------------------------------------------------------- the verifier

  /** `checkGenesis`: an account opened by its first receive. */
  function CheckGenesis(l: Ledger, b: AccBlock): Verdict {
    if Head(l, b.signer).Some? then FAIL
    else if b.preHash != "" || b.modified != b.amount then FAIL
    else SUCCESS
  }

  /** `checkSelfAmount`, against the block the store answers as the head. */
  function CheckSelfOn(head: Option<AccBlock>, b: AccBlock): Verdict {
    match head
    case None => FAIL
    case Some(last) =>
      if last.hash != b.preHash then FAIL
      else if last.snapshotHeight > b.snapshotHeight then FAIL
      else if b.kind.Send? && b.modified > 0 then FAIL
      else if b.kind.Received? && b.modified < 0 then FAIL
      else if last.amount + b.modified == b.amount && b.amount > 0 then SUCCESS
      else FAIL
  }

  function CheckSelfAmount(l: Ledger, b: AccBlock): Verdict {
    CheckSelfOn(Head(l, b.signer), b)
  }

  /** `verifySelf`. */
  function VerifySelf(l: Ledger, b: AccBlock): Verdict {
    if b.kind.Received? && b.height == 0 then CheckGenesis(l, b)
    else if b.kind.Received? && ReceivedBefore(l, b.to, b.sourceHash) then FAIL
    else CheckSelfAmount(l, b)
  }

  /** `checkFromAmount`. The second lookup, by hash, can only differ from the first where the next
      test fails anyway, with the same verdict. */
  function CheckFromAmount(l: Ledger, b: AccBlock): Verdict {
    match ByHeight(l, b.from, b.sourceHeight)
    case None => PENDING
    case Some(source) =>
      if source.hash != b.sourceHash then FAIL
      else if b.snapshotHeight < source.snapshotHeight then FAIL
      else if source.modified + b.modified == 0 then SUCCESS
      else FAIL
  }

  /** `VerifyReferred` and `VerifyResult`. `opening` are the hashes and heights of the genesis
      accounts; `snapshotKnown` is whether the snapshot the block refers to is stored. */
  function Verify(l: Ledger, b: AccBlock, opening: set<(Hash, int)>, snapshotKnown: bool): Verdict {
    if b.kind.Genesis? then (if (b.hash, b.height) in opening then SUCCESS else FAIL)
    else
      var snapshot := if snapshotKnown then SUCCESS else PENDING;
      var self := VerifySelf(l, b);
      var from := if b.kind.Received? then CheckFromAmount(l, b) else SUCCESS;
      if self == FAIL || from == FAIL then FAIL
      else if self == SUCCESS && from == SUCCESS && snapshot == SUCCESS then SUCCESS
      else PENDING
  }

  /** `insertChain`. */
  function Insert(l: Ledger, b: AccBlock): Ledger {
    l[b.signer := (if b.signer in l then l[b.signer] else []) + [b]]
  }

  // ---------------------------------------------------------------- well-formed ledgers

  /** The receive names a send in the ledger, addressed to the account that receives. */
  ghost predicate Names(l: Ledger, r: AccBlock) {
    var s := ByHeight(l, r.from, r.sourceHeight);
    && s.Some? && s.value.hash == r.sourceHash && s.value.kind.Send? && s.value.to == r.signer
    && s.value.modified + r.modified == 0 && s.value.snapshotHeight <= r.snapshotHeight
  }

  ghost predicate BlockOk(l: Ledger, a: Addr, i: nat)
    requires a in l && i < |l[a]|
  {
    var b := l[a][i];
    && b.height == i && b.signer == a
    && (b.kind.Genesis? ==> i == 0 && b.modified == 0 && b.amount == 200)
    && (b.kind.Send? ==> i > 0 && b.modified <= 0)
    && (b.kind.Received? ==> b.modified >= 0 && Names(l, b))
    && (i == 0 && b.kind.Received? ==> b.amount == b.modified)
    && (i > 0 ==> Follows(l[a][i - 1], b))
  }

  /** What the verifier makes sure of between a block and the one below it. */
  predicate Follows(last: AccBlock, b: AccBlock) {
    && b.preHash == last.hash && last.snapshotHeight <= b.snapshotHeight
    && b.amount == last.amount + b.modified && b.amount > 0
  }

  /** A hash names one block of the ledger. */
  ghost predicate DistinctHashes(l: Ledger) {
    forall a, i, a', i' | a in l && 0 <= i < |l[a]| && a' in l && 0 <= i' < |l[a']| && l[a][i].hash == l[a'][i'].hash ::
      a == a' && i == i'
  }

  ghost predicate LedgerOk(l: Ledger) {
    && (forall a | a in l :: l[a] != [])
    && (forall a, i {:trigger BlockOk(l, a, i)} | a in l && 0 <= i < |l[a]| :: BlockOk(l, a, i))
    && DistinctHashes(l)
  }

  /** No send has two receives. */
  ghost predicate ReceivedOnce(l: Ledger) {
    forall a, i, a', i' | a in l && 0 <= i < |l[a]| && a' in l && 0 <= i' < |l[a']|
                          && l[a][i].kind.Received? && l[a'][i'].kind.Received?
                          && l[a][i].sourceHash == l[a'][i'].sourceHash ::
      a == a' && i == i'
  }

  // ---------------------------------------------------------------- one verified insert

  /** What the verifier leaves to others: the hash is new, the block is offered at the height above
      its parent, and what it receives is a send addressed to its signer. */
  ghost predicate Fitting(l: Ledger, b: AccBlock) {
    && (forall a, i | a in l && 0 <= i < |l[a]| :: l[a][i].hash != b.hash)
    && (Head(l, b.signer).Some? && b.preHash == Head(l, b.signer).value.hash ==>
          b.height == Head(l, b.signer).value.height + 1)
    && (Head(l, b.signer).None? ==> b.height == 0)
    && (b.kind.Received? ==>
          var s := ByHeight(l, b.from, b.sourceHeight);
          s.Some? ==> s.value.kind.Send? && s.value.to == b.signer)
  }

  /** A fitting block that is not of genesis type. Whom a receive itself says it is addressed to is
      not asked. */
  ghost predicate Candidate(l: Ledger, b: AccBlock) {
    !b.kind.Genesis? && Fitting(l, b)
  }

  ghost predicate Verified(l: Ledger, b: AccBlock) {
    VerifySelf(l, b) == SUCCESS && (b.kind.Received? ==> CheckFromAmount(l, b) == SUCCESS)
  }

  /** A SUCCESS verdict is a SUCCESS of each part. */
  lemma SuccessIsVerified(l: Ledger, b: AccBlock, opening: set<(Hash, int)>, known: bool)
    requires Verify(l, b, opening, known) == SUCCESS && !b.kind.Genesis?
    ensures Verified(l, b) && known
  {
  }

  lemma ByHeightGrows(l: Ledger, b: AccBlock, a: Addr, i: int)
    requires ByHeight(l, a, i).Some?
    ensures ByHeight(Insert(l, b), a, i) == ByHeight(l, a, i)
  {
  }

  lemma NewBlockOk(l: Ledger, b: AccBlock)
    requires LedgerOk(l) && !b.kind.Genesis? && Fitting(l, b) && Verified(l, b)
    ensures var l' := Insert(l, b);
            b.signer in l' && |l'[b.signer]| > 0 && BlockOk(l', b.signer, |l'[b.signer]| - 1)
  {
    var l', a := Insert(l, b), b.signer;
    if b.kind.Received? {
      var s := ByHeight(l, b.from, b.sourceHeight);
      ByHeightGrows(l, b, b.from, b.sourceHeight);
      assert BlockOk(l, b.from, b.sourceHeight);
    }
    if a in l { assert BlockOk(l, a, |l[a]| - 1); }
  }

  /** A verified insert of a fitting block keeps the ledger well-formed. */
  lemma InsertKeepsOk(l: Ledger, b: AccBlock)
    requires LedgerOk(l) && !b.kind.Genesis? && Fitting(l, b) && Verified(l, b)
    ensures LedgerOk(Insert(l, b))
  {
    var l' := Insert(l, b);
    NewBlockOk(l, b);
    forall a, i | a in l' && 0 <= i < |l'[a]|
      ensures BlockOk(l', a, i)
    {
      if a in l && i < |l[a]| {
        assert BlockOk(l, a, i) && l'[a][i] == l[a][i];
        if l[a][i].kind.Received? { ByHeightGrows(l, b, l[a][i].from, l[a][i].sourceHeight); }
      }
    }
  }

  /** A verified insert keeps the ledger well-formed exactly when the block fits: a verdict of success
      by itself does not say that a receive is of a send to the receiver. */
  lemma InsertKeepsOkExactly(l: Ledger, b: AccBlock)
    requires LedgerOk(l) && !b.kind.Genesis? && Verified(l, b)
    ensures LedgerOk(Insert(l, b)) <==> Fitting(l, b)
  {
    if Fitting(l, b) {
      InsertKeepsOk(l, b);
    } else if LedgerOk(Insert(l, b)) {
      WellFormedFits(l, b);
    }
  }

  lemma WellFormedFits(l: Ledger, b: AccBlock)
    requires LedgerOk(l) && LedgerOk(Insert(l, b))
    ensures Fitting(l, b)
  {
    var l', a := Insert(l, b), b.signer;
    var n := |l'[a]| - 1;
    assert BlockOk(l', a, n) && l'[a][n] == b;
    if a in l { assert BlockOk(l, a, |l[a]| - 1); }
    forall c, i | c in l && 0 <= i < |l[c]|
      ensures l[c][i].hash != b.hash
    {
      assert l'[c][i] == l[c][i];
    }
    if ByHeight(l, b.from, b.sourceHeight).Some? { ByHeightGrows(l, b, b.from, b.sourceHeight); }
  }
}
