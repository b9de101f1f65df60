/** Transactions and the cryptography they rest on (border/blockchain/transaction.py). */
module Transactions {
  import opened Wrappers

  const COINBASE_ADDRESS: string := "BC_COINBASE_00000000000000000000000000000000"

  /** An absent signature is the empty string: the code only asks whether it is truthy. */
  datatype Transaction = Transaction(
    txId: string, fromAddress: string, toAddress: string, amount: int, fee: int,
    timestamp: real, publicKey: string, signature: string)

  /** The fields that are signed and hashed. */
  datatype TxContent = TxContent(
    txId: string, fromAddress: string, toAddress: string, amount: int, fee: int, timestamp: real)

  datatype Message =
    | TxMessage(tx: TxContent)
    | BandwidthMessage(relayAddress: string, clientId: string, bytesForwarded: int, timestamp: real)
    | StorageMessage(proofId: string, nodeAddress: string, chunkId: string, bytesStored: int,
                     durationSeconds: real, timestamp: real)

  /** The fields of a block that its hash covers; a sorted list of ids is the multiset of them. */
  datatype BlockContent = BlockContent(
    index: int, timestamp: real, previousHash: string, minerAddress: string, difficulty: int,
    receiptIds: multiset<string>, computeIds: multiset<string>, storageIds: multiset<string>,
    txHashes: seq<string>)

  /** Hashing and Ed25519 as uninterpreted functions. deriveAddress is None on a malformed key. */
  datatype Crypto = Crypto(
    deriveAddress: string -> Option<string>,
    verify: (string, Message, string) -> bool,
    txDigest: TxContent -> string,
    blockDigest: BlockContent -> string,
    coinbaseId: (string, int, string) -> string)

  function Content(tx: Transaction): TxContent
  {
    TxContent(tx.txId, tx.fromAddress, tx.toAddress, tx.amount, tx.fee, tx.timestamp)
  }

  predicate IsCoinbase(tx: Transaction)
  {
    tx.fromAddress == COINBASE_ADDRESS
  }

  predicate IsUser(tx: Transaction)
  {
    !IsCoinbase(tx)
  }

  /** Transaction.verify */
  predicate VerifyTx(c: Crypto, tx: Transaction)
  {
    if tx.fromAddress == COINBASE_ADDRESS then tx.signature == "COINBASE"
    else if tx.signature == "" || tx.publicKey == "" then false
    else if c.deriveAddress(tx.publicKey) != Some(tx.fromAddress) then false
    else c.verify(tx.publicKey, TxMessage(Content(tx)), tx.signature)
  }

  /** Transaction.coinbase with a deterministic id. */
  function Coinbase(c: Crypto, toAddress: string, reward: int, id: string): Transaction
  {
    Transaction(c.coinbaseId(toAddress, reward, id), COINBASE_ADDRESS, toAddress, reward, 0, 0.0, "", "COINBASE")
  }

  function Cost(tx: Transaction): int
  {
    tx.amount + tx.fee
  }
}
