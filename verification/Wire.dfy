/** The values blocks are made of. A hash is an identifier: nothing is hashed. */
module Wire {
  datatype Option<+T> = None | Some(value: T)

  type Hash = nat

  /** No block or transaction hashes to zero. */
  const ZERO_HASH: Hash := 0

  datatype OutPoint = OutPoint(hash: Hash, index: nat)

  datatype TxOut = TxOut(amount: int, pkScript: seq<nat>, unspendable: bool)

  datatype Tx = Tx(hash: Hash, ins: seq<OutPoint>, outs: seq<TxOut>)

  /** A block: its hash, the hash of its parent, the work its difficulty bits
      stand for, its timestamp, and its transactions, coinbase first. */
  datatype Block = Block(hash: Hash, prev: Hash, work: nat, timestamp: int, txs: seq<Tx>)
}
