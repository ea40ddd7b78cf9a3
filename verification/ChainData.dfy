/**
  The values the block store works on.  Hashes, keys, key images and the prunable part of a
  transaction are opaque: they are only copied and compared.  The functions the store calls but
  does not define (hashing, commitments) are gathered in `Crypto` and passed as a parameter.
 */
module ChainData {

  type Hash = nat
  type KeyImage = nat
  type PublicKey = nat
  type Key = nat
  type Blob = nat

  datatype Option<+T> = None | Some(value: T)

  /** A transaction input; `OtherIn` stands for the script variants the store does not support. */
  datatype TxIn = ToKey(keyImage: KeyImage) | Gen(height: nat) | OtherIn

  datatype TxOutTarget = OutToKey(key: PublicKey) | OtherTarget

  datatype TxOut = TxOut(amount: nat, target: TxOutTarget)

  /** The unprunable part of a transaction: all that `get_pruned_tx` gives back. */
  datatype TxBase = TxBase(version: nat, unlockTime: nat, vin: seq<TxIn>, vout: seq<TxOut>, outPk: seq<Key>)

  datatype Transaction = Transaction(base: TxBase, prunable: Blob)

  datatype Block = Block(majorVersion: nat, timestamp: nat, prevId: Hash, spinnerTx: Transaction, txHashes: seq<Hash>)

  /** The arguments of the public `add_block`. */
  datatype BlockArgs = BlockArgs(
    blk: Block, weight: nat, longTermWeight: nat, gyro: nat, coins: nat,
    spinKey: PublicKey, spinPrevHeight: nat, txs: seq<Transaction>)

  datatype Crypto = Crypto(
    txHash: Transaction -> Hash, prunableHash: Transaction -> Hash,
    blockHash: Block -> Hash, zeroCommit: nat -> Key)

  /** The exceptions the store throws.  `UndefinedAccess` marks an out-of-range read, which the C++ leaves undefined. */
  datatype Error =
    | InconsistentSizes | KeyImageExists | TxExists | TxDne | BlockExists | ParentDne | BlockDne
    | OutputDne | WrongOutputType | MissingCommitment | DbError | UndefinedAccess

  /** What a call leaves behind: an exception keeps whatever was written before it. */
  datatype Outcome<+S> = Done(state: S) | Thrown(state: S, error: Error)

  /** The key images of the to-key inputs among `vin`. */
  function Images(vin: seq<TxIn>): set<KeyImage> {
    set i | 0 <= i < |vin| && vin[i].ToKey? :: vin[i].keyImage
  }

  /** Every input is a to-key or a gen input. */
  predicate Supported(vin: seq<TxIn>) {
    forall i | 0 <= i < |vin| :: !vin[i].OtherIn?
  }

  predicate HasGen(vin: seq<TxIn>) {
    exists i | 0 <= i < |vin| :: vin[i].Gen?
  }

  /** No key image occurs twice among `vin`. */
  predicate DistinctImages(vin: seq<TxIn>) {
    forall i, j | 0 <= i < j < |vin| && vin[i].ToKey? && vin[j].ToKey? :: vin[i].keyImage != vin[j].keyImage
  }
}
