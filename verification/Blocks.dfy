/** Blocks as the pool sees them: a height, a hash and the hash of the block below. */
module Blocks {

  /** The hash is an opaque identifier; how it is computed is not modelled. */
  type Hash = string

  datatype Option<+T> = None | Some(value: T)

  datatype Block = Block(height: int, hash: Hash, preHash: Hash)

  /** The stand-in head that an empty disk chain reports. */
  const NO_BLOCK := Block(-1, "", "")

  /** What a chain store makes of a block offered to it. An account's store takes it or turns it
      away; the snapshot store first keeps it and may then fail on the points of the accounts the
      block lists. */
  datatype StoreAnswer = TakenIn | TurnedAway | KeptInError

  /** Lets an element be picked from a set that is not empty. */
  lemma EmptyOrNot(s: set<int>)
    ensures s == {} || exists x :: x in s
  {
    if forall x :: x !in s {
      assert s == {};
    }
  }

  function Min(a: int, b: int): int {
    if a <= b then a else b
  }

  function Max(a: int, b: int): int {
    if a <= b then b else a
  }

  /** A hash names at most one block of the set. */
  ghost predicate HashIdentifies(s: set<Block>) {
    forall a, b | a in s && b in s && a.hash == b.hash :: a == b
  }
}
