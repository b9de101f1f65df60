/** Blocks, their proofs and their sealing (border/blockchain/block.py). */
module Blocks {
  import opened Numbers
  import opened Wrappers
  import opened Economics
  import opened Sequences
  import opened Text
  import opened Transactions

  datatype BandwidthProof = BandwidthProof(
    receiptId: string, relayAddress: string, clientId: string, bytesForwarded: int, timestamp: real,
    sessionId: string, relaySignature: string, relayPublicKey: string)

  datatype ComputeProofRecord = ComputeProofRecord(
    proofId: string, workerAddress: string, computeSeconds: real, bytesProcessed: int, price: int)

  datatype StorageProofRecord = StorageProofRecord(
    proofId: string, nodeAddress: string, chunkId: string, bytesStored: int, durationSeconds: real,
    timestamp: real, reward: int, nodeSignature: string, nodePublicKey: string)

  datatype Block = Block(
    index: int, timestamp: real, previousHash: string, minerAddress: string,
    bandwidthProofs: seq<BandwidthProof>, transactions: seq<Transaction>,
    computeProofs: seq<ComputeProofRecord>, storageProofs: seq<StorageProofRecord>,
    blockHash: string, difficulty: int)

  const GENESIS_MINER: string := "BC_GENESIS_00000000000000000000000000000000"
  const GENESIS_PREVIOUS: string := "0000000000000000000000000000000000000000000000000000000000000000"
  const BYTES_PER_GB: real := 1_073_741_824.0

  // ---------------------------------------------------------------- proofs

  predicate VerifyBandwidth(c: Crypto, p: BandwidthProof)
  {
    && p.relaySignature != "" && p.relayPublicKey != ""
    && c.deriveAddress(p.relayPublicKey) == Some(p.relayAddress)
    && c.verify(p.relayPublicKey,
                BandwidthMessage(p.relayAddress, p.clientId, p.bytesForwarded, p.timestamp), p.relaySignature)
  }

  predicate VerifyStorage(c: Crypto, p: StorageProofRecord)
  {
    && p.nodeSignature != "" && p.nodePublicKey != ""
    && c.deriveAddress(p.nodePublicKey) == Some(p.nodeAddress)
    && c.verify(p.nodePublicKey,
                StorageMessage(p.proofId, p.nodeAddress, p.chunkId, p.bytesStored, p.durationSeconds, p.timestamp),
                p.nodeSignature)
  }

  /** Satoshi for forwarded bytes: one coin a gigabyte, not yet rounded. */
  function BandwidthValue(p: BandwidthProof): real
  {
    p.bytesForwarded as real / BYTES_PER_GB * 100_000_000.0
  }

  /** Two coins an hour plus a tenth of a coin a gigabyte, or the agreed price if that is more. */
  function ComputeReward(p: ComputeProofRecord): int
  {
    var hours := p.computeSeconds / 3600.0;
    var gb := p.bytesProcessed as real / BYTES_PER_GB;
    Round(MaxReal(hours * 200_000_000.0 + gb * 10_000_000.0, p.price as real))
  }

  function TotalBytes(ps: seq<BandwidthProof>): int
  {
    if ps == [] then 0 else TotalBytes(ps[..|ps| - 1]) + ps[|ps| - 1].bytesForwarded
  }

  function BandwidthTotal(ps: seq<BandwidthProof>): real
  {
    if ps == [] then 0.0 else BandwidthTotal(ps[..|ps| - 1]) + BandwidthValue(ps[|ps| - 1])
  }

  function ComputeTotal(ps: seq<ComputeProofRecord>): int
  {
    if ps == [] then 0 else ComputeTotal(ps[..|ps| - 1]) + ComputeReward(ps[|ps| - 1])
  }

  function StorageTotal(ps: seq<StorageProofRecord>): int
  {
    if ps == [] then 0 else StorageTotal(ps[..|ps| - 1]) + ps[|ps| - 1].reward
  }

  function UserFee(tx: Transaction): int
  {
    if IsUser(tx) then tx.fee else 0
  }

  function FeeTotal(txs: seq<Transaction>): int
  {
    SumOf(txs, UserFee)
  }

  function ReceiptIds(ps: seq<BandwidthProof>): seq<string>
  {
    seq(|ps|, i requires 0 <= i < |ps| => ps[i].receiptId)
  }

  function ComputeIds(ps: seq<ComputeProofRecord>): seq<string>
  {
    seq(|ps|, i requires 0 <= i < |ps| => ps[i].proofId)
  }

  function StorageIds(ps: seq<StorageProofRecord>): seq<string>
  {
    seq(|ps|, i requires 0 <= i < |ps| => ps[i].proofId)
  }

  function TxIds(txs: seq<Transaction>): seq<string>
  {
    seq(|txs|, i requires 0 <= i < |txs| => txs[i].txId)
  }

  function Elements<T>(xs: seq<T>): set<T>
  {
    set x | x in xs
  }

  // ---------------------------------------------------------------- hashing

  function TxHashes(c: Crypto, txs: seq<Transaction>): seq<string>
  {
    seq(|txs|, i requires 0 <= i < |txs| => c.txDigest(Content(txs[i])))
  }

  function Contents(c: Crypto, b: Block): BlockContent
  {
    BlockContent(b.index, b.timestamp, b.previousHash, b.minerAddress, b.difficulty,
                 multiset(ReceiptIds(b.bandwidthProofs)), multiset(ComputeIds(b.computeProofs)),
                 multiset(StorageIds(b.storageProofs)),
                 TxHashes(c, b.transactions))
  }

  function ComputeHash(c: Crypto, b: Block): string
  {
    c.blockDigest(Contents(c, b))
  }

  function Genesis(c: Crypto): Block
  {
    var b := Block(0, 1_748_649_600.0, GENESIS_PREVIOUS, GENESIS_MINER, [],
                   [Coinbase(c, GENESIS_MINER, 0, "genesis")], [], [], "", MIN_DIFFICULTY);
    b.(blockHash := ComputeHash(c, b))
  }

  // ---------------------------------------------------------------- sealing

  function FeeKey(tx: Transaction): real
  {
    -(tx.fee as real)
  }

  function RawReward(b: Block): real
    requires b.index >= 0
  {
    BlockReward(b.index) as real + BandwidthTotal(b.bandwidthProofs) + ComputeTotal(b.computeProofs) as real
    + StorageTotal(b.storageProofs) as real + FeeTotal(b.transactions) as real
  }

  /** Block.finalize: user transactions by fee, the coinbase in front, then the hash. */
  function Finalize(c: Crypto, b: Block, currentSupply: int): Block
    requires b.index >= 0
  {
    var users := StableSort(Filter(b.transactions, IsUser), FeeKey);
    var reward := Round(MinReal(RawReward(b), SupplyHeadroom(currentSupply) as real));
    var sealed := b.(transactions := [Coinbase(c, b.minerAddress, reward, Decimal(b.index))] + users);
    sealed.(blockHash := ComputeHash(c, sealed))
  }
}
