/** Transactions as the pool and the ledger see them. */
module Types {

  type Hash(==, !new, 0)
  type Address(==, !new, 0)
  type Token(==, !new, 0)

  const EMPTY_ADDRESS: Address

  datatype Option<+T> = None | Some(value: T)

  datatype Kind = Normal | Sequencer | Campaign | TermChange | Archive

  /** `to`, `token` and `value` matter to normal transactions only, `height` to sequencers only. */
  datatype Tx = Tx(
    hash: Hash,
    kind: Kind,
    parents: seq<Hash>,
    sender: Address,
    nonce: nat,
    height: nat,
    to: Address,
    token: Token,
    value: nat)

  ghost predicate NoDup<T>(s: seq<T>) {
    forall i, j :: 0 <= i < j < |s| ==> s[i] != s[j]
  }

  function Elems<T>(s: seq<T>): set<T> {
    set x | x in s
  }

  /** `s` enumerates the set `e`, each element once. */
  ghost predicate Lists<T>(s: seq<T>, e: set<T>) {
    NoDup(s) && Elems(s) == e
  }

  function Max(x: int, y: int): int {
    if x < y then y else x
  }
}
