/** What a miner is paid for: every pending proof goes into the next mined block, once. */
module MinedServices {
  import opened Wrappers
  import opened Economics
  import opened Sequences
  import opened Transactions
  import opened Blocks
  import opened Ledger
  import opened ChainValidity
  import opened Accounting
  import opened Mining
  import opened ReceiptUse

  // ---------------------------------------------------------------- all ids of one kind

  /** The ids of one kind of proof in a block. */
  type IdsOf = Block -> seq<string>

  const RECEIPTS: IdsOf := (b: Block) => ReceiptIds(b.bandwidthProofs)
  const COMPUTES: IdsOf := (b: Block) => ComputeIds(b.computeProofs)
  const STORAGES: IdsOf := (b: Block) => StorageIds(b.storageProofs)

  function AllIds(chain: seq<Block>, ids: IdsOf): seq<string>
  {
    if chain == [] then [] else AllIds(chain[..|chain| - 1], ids) + ids(Last(chain))
  }

  lemma {:induction false} AllIdsAreSpent(chain: seq<Block>)
    ensures Elements(AllIds(chain, RECEIPTS)) == ReceiptsOf(chain)
    ensures Elements(AllIds(chain, COMPUTES)) == ComputesOf(chain)
    ensures Elements(AllIds(chain, STORAGES)) == StoragesOf(chain)
  {
    if chain != [] {
      var init, b := chain[..|chain| - 1], Last(chain);
      AllIdsAreSpent(init);
      ElementsConcat(AllIds(init, RECEIPTS), RECEIPTS(b));
      ElementsConcat(AllIds(init, COMPUTES), COMPUTES(b));
      ElementsConcat(AllIds(init, STORAGES), STORAGES(b));
    }
  }

  lemma {:induction false} AllIdsOfOne(b: Block, ids: IdsOf)
    ensures AllIds([b], ids) == ids(b)
  {
    assert [b][..0] == [];
  }

  lemma {:induction false} InAllIds(chain: seq<Block>, ids: IdsOf, i: nat, id: string)
    requires i < |chain| && id in ids(chain[i])
    ensures id in AllIds(chain, ids)
  {
    if i < |chain| - 1 { InAllIds(chain[..|chain| - 1], ids, i, id); }
  }

  /** Where no id occurs twice, an id of one block is in no later one. */
  lemma {:induction false} NotAgain(chain: seq<Block>, ids: IdsOf, i: nat, j: nat, id: string)
    requires Distinct(AllIds(chain, ids)) && i < j < |chain| && id in ids(chain[i])
    ensures id !in ids(chain[j])
  {
    var init := chain[..|chain| - 1];
    DistinctParts(AllIds(init, ids), ids(Last(chain)));
    if j < |chain| - 1 {
      NotAgain(init, ids, i, j, id);
    } else {
      InAllIds(init, ids, i, id);
      assert id in Elements(AllIds(init, ids)) && id !in Elements(ids(Last(chain)));
    }
  }

  lemma {:induction false} DistinctParts(a: seq<string>, b: seq<string>)
    requires Distinct(a + b)
    ensures Distinct(a) && Distinct(b) && Elements(a) !! Elements(b)
  {
    forall id ensures multiset(a)[id] + multiset(b)[id] <= 1 { assert multiset(a + b)[id] <= 1; }
    forall id | id in Elements(a) ensures id !in Elements(b) {
      assert id in multiset(a) && multiset(a)[id] + multiset(b)[id] <= 1;
    }
  }

  // ---------------------------------------------------------------- local runs

  /** On the chain and in the pools together no proof occurs twice. */
  ghost predicate Orderly(s: State)
  {
    && Distinct(AllIds(s.chain, RECEIPTS) + ReceiptIds(s.pendingProofs))
    && Distinct(AllIds(s.chain, COMPUTES) + ComputeIds(s.pendingCompute))
    && Distinct(AllIds(s.chain, STORAGES) + StorageIds(s.pendingStorage))
  }

  lemma {:induction false} OneMoreId(all: seq<string>, pool: seq<string>, id: string)
    requires Distinct(all + pool) && id !in all && id !in pool
    ensures Distinct(all + (pool + [id]))
  {
    assert all + (pool + [id]) == all + pool + [id];
    assert Elements(all + pool) !! Elements([id]);
    DistinctConcat(all + pool, [id]);
  }

  lemma {:induction false} AddingKeepsOrderly(c: Crypto, s: State, e: Event)
    requires s.chain != [] && Consistent(s) && Orderly(s)
    requires e.SubmitTransaction? || e.SubmitProof? || e.SubmitComputeProof? || e.SubmitStorageProof?
    ensures Orderly(Step(c, s, e))
  {
    AllIdsAreSpent(s.chain);
    match e
    case SubmitProof(p) => if AcceptsProof(s, p) { AddedReceipt(s, p); }
    case SubmitComputeProof(p, hasStake) => if AcceptsComputeProof(s, p, hasStake) { AddedCompute(s, p); }
    case SubmitStorageProof(p) => if AcceptsStorageProof(c, s, p) { AddedStorage(s, p); }
    case _ =>
  }

  lemma {:induction false} AddedReceipt(s: State, p: BandwidthProof)
    requires Distinct(AllIds(s.chain, RECEIPTS) + ReceiptIds(s.pendingProofs))
    requires p.receiptId !in Elements(AllIds(s.chain, RECEIPTS)) && p.receiptId !in ReceiptIds(s.pendingProofs)
    ensures Distinct(AllIds(s.chain, RECEIPTS) + ReceiptIds(s.pendingProofs + [p]))
  {
    OneMoreId(AllIds(s.chain, RECEIPTS), ReceiptIds(s.pendingProofs), p.receiptId);
    assert ReceiptIds(s.pendingProofs + [p]) == ReceiptIds(s.pendingProofs) + [p.receiptId];
  }

  lemma {:induction false} AddedCompute(s: State, p: ComputeProofRecord)
    requires Distinct(AllIds(s.chain, COMPUTES) + ComputeIds(s.pendingCompute))
    requires p.proofId !in Elements(AllIds(s.chain, COMPUTES)) && p.proofId !in ComputeIds(s.pendingCompute)
    ensures Distinct(AllIds(s.chain, COMPUTES) + ComputeIds(s.pendingCompute + [p]))
  {
    OneMoreId(AllIds(s.chain, COMPUTES), ComputeIds(s.pendingCompute), p.proofId);
    assert ComputeIds(s.pendingCompute + [p]) == ComputeIds(s.pendingCompute) + [p.proofId];
  }

  lemma {:induction false} AddedStorage(s: State, p: StorageProofRecord)
    requires Distinct(AllIds(s.chain, STORAGES) + StorageIds(s.pendingStorage))
    requires p.proofId !in Elements(AllIds(s.chain, STORAGES)) && p.proofId !in StorageIds(s.pendingStorage)
    ensures Distinct(AllIds(s.chain, STORAGES) + StorageIds(s.pendingStorage + [p]))
  {
    OneMoreId(AllIds(s.chain, STORAGES), StorageIds(s.pendingStorage), p.proofId);
    assert StorageIds(s.pendingStorage + [p]) == StorageIds(s.pendingStorage) + [p.proofId];
  }

  /** Of a pool that shares no id with the spent set, nothing is filtered out. */
  lemma {:induction false} PoolsAreUnspent(s: State)
    requires Consistent(s) && Orderly(s)
    ensures WithoutProofs(s.pendingProofs, s.spentReceipts) == s.pendingProofs
    ensures WithoutComputes(s.pendingCompute, s.spentCompute) == s.pendingCompute
    ensures WithoutStorages(s.pendingStorage, s.spentStorage) == s.pendingStorage
  {
    AllIdsAreSpent(s.chain);
    DistinctParts(AllIds(s.chain, RECEIPTS), ReceiptIds(s.pendingProofs));
    DistinctParts(AllIds(s.chain, COMPUTES), ComputeIds(s.pendingCompute));
    DistinctParts(AllIds(s.chain, STORAGES), StorageIds(s.pendingStorage));
    forall p | p in s.pendingProofs ensures p.receiptId !in s.spentReceipts {
      var i :| 0 <= i < |s.pendingProofs| && s.pendingProofs[i] == p;
      assert ReceiptIds(s.pendingProofs)[i] in Elements(ReceiptIds(s.pendingProofs));
    }
    forall p | p in s.pendingCompute ensures p.proofId !in s.spentCompute {
      var i :| 0 <= i < |s.pendingCompute| && s.pendingCompute[i] == p;
      assert ComputeIds(s.pendingCompute)[i] in Elements(ComputeIds(s.pendingCompute));
    }
    forall p | p in s.pendingStorage ensures p.proofId !in s.spentStorage {
      var i :| 0 <= i < |s.pendingStorage| && s.pendingStorage[i] == p;
      assert StorageIds(s.pendingStorage)[i] in Elements(StorageIds(s.pendingStorage));
    }
    FilterAll(s.pendingProofs, (p: BandwidthProof) => p.receiptId !in s.spentReceipts);
    FilterAll(s.pendingCompute, (p: ComputeProofRecord) => p.proofId !in s.spentCompute);
    FilterAll(s.pendingStorage, (p: StorageProofRecord) => p.proofId !in s.spentStorage);
  }

  /** A block that lists a whole pool empties it. */
  lemma {:induction false} ListedLeaves(ps: seq<BandwidthProof>, cs: seq<ComputeProofRecord>,
                                        ss: seq<StorageProofRecord>)
    ensures WithoutProofs(ps, Elements(ReceiptIds(ps))) == []
    ensures WithoutComputes(cs, Elements(ComputeIds(cs))) == []
    ensures WithoutStorages(ss, Elements(StorageIds(ss))) == []
  {
    forall i | 0 <= i < |ps| ensures ps[i].receiptId in ReceiptIds(ps) { assert ReceiptIds(ps)[i] == ps[i].receiptId; }
    forall i | 0 <= i < |cs| ensures cs[i].proofId in ComputeIds(cs) { assert ComputeIds(cs)[i] == cs[i].proofId; }
    forall i | 0 <= i < |ss| ensures ss[i].proofId in StorageIds(ss) { assert StorageIds(ss)[i] == ss[i].proofId; }
    NoneLeft(ps, ReceiptIds(ps));
    NoneLeftOf(cs, ComputeIds(cs));
    NoneLeftIn(ss, StorageIds(ss));
  }

  lemma {:induction false} NoneLeft(ps: seq<BandwidthProof>, ids: seq<string>)
    requires forall i :: 0 <= i < |ps| ==> ps[i].receiptId in ids
    ensures WithoutProofs(ps, Elements(ids)) == []
  {
    if ps != [] { NoneLeft(ps[..|ps| - 1], ids); }
  }

  lemma {:induction false} NoneLeftOf(ps: seq<ComputeProofRecord>, ids: seq<string>)
    requires forall i :: 0 <= i < |ps| ==> ps[i].proofId in ids
    ensures WithoutComputes(ps, Elements(ids)) == []
  {
    if ps != [] { NoneLeftOf(ps[..|ps| - 1], ids); }
  }

  lemma {:induction false} NoneLeftIn(ps: seq<StorageProofRecord>, ids: seq<string>)
    requires forall i :: 0 <= i < |ps| ==> ps[i].proofId in ids
    ensures WithoutStorages(ps, Elements(ids)) == []
  {
    if ps != [] { NoneLeftIn(ps[..|ps| - 1], ids); }
  }

  /** The block holds the pools as they are, and they are empty and spent afterwards. */
  ghost predicate TakesPools(s: State, s': State, b: Block)
  {
    && b.bandwidthProofs == s.pendingProofs
    && b.computeProofs == s.pendingCompute && b.storageProofs == s.pendingStorage
    && s'.pendingProofs == [] && s'.pendingCompute == [] && s'.pendingStorage == []
    && s'.spentReceipts == s.spentReceipts + Elements(ReceiptIds(s.pendingProofs))
    && s'.spentCompute == s.spentCompute + Elements(ComputeIds(s.pendingCompute))
    && s'.spentStorage == s.spentStorage + Elements(StorageIds(s.pendingStorage))
  }

  lemma {:induction false} MineTakesPools(c: Crypto, s: State, miner: string, time: real)
    requires s.chain != [] && Consistent(s) && Orderly(s)
    requires |Step(c, s, Mine(miner, time)).chain| > |s.chain|
    ensures
      var s' := Step(c, s, Mine(miner, time));
      var b := CreateBlock(c, s, miner, time, [], []);
      b.Some? && s'.chain == s.chain + [b.value] && TakesPools(s, s', b.value)
  {
    StepLength(c, s, Mine(miner, time));
    var b := CreateBlock(c, s, miner, time, [], []).value;
    MinedBlockServices(c, s, miner, time, [], []);
    PoolsAreUnspent(s);
    ListedLeaves(s.pendingProofs, s.pendingCompute, s.pendingStorage);
    assert Step(c, s, Mine(miner, time)) == Append(s, b);
  }

  lemma {:induction false} MiningKeepsOrderly(c: Crypto, s: State, miner: string, time: real)
    requires s.chain != [] && Consistent(s) && Orderly(s)
    ensures Orderly(Step(c, s, Mine(miner, time)))
  {
    var s' := Step(c, s, Mine(miner, time));
    StepLength(c, s, Mine(miner, time));
    if |s'.chain| > |s.chain| {
      MineTakesPools(c, s, miner, time);
      assert s'.chain[..|s'.chain| - 1] == s.chain;
      assert AllIds(s'.chain, RECEIPTS) + [] == AllIds(s.chain, RECEIPTS) + ReceiptIds(s.pendingProofs);
      assert AllIds(s'.chain, COMPUTES) + [] == AllIds(s.chain, COMPUTES) + ComputeIds(s.pendingCompute);
      assert AllIds(s'.chain, STORAGES) + [] == AllIds(s.chain, STORAGES) + StorageIds(s.pendingStorage);
    } else {
      NothingMined(c, s, miner, time);
    }
  }

  lemma {:induction false} NothingMined(c: Crypto, s: State, miner: string, time: real)
    requires s.chain != [] && |Step(c, s, Mine(miner, time)).chain| <= |s.chain|
    ensures Step(c, s, Mine(miner, time)) == s
  {}

  lemma {:induction false} RunOrderly(c: Crypto, events: seq<Event>)
    requires OnlyLocalBlocks(events)
    ensures Orderly(Run(c, events))
  {
    if events == [] {
      AllIdsOfOne(Genesis(c), RECEIPTS);
      AllIdsOfOne(Genesis(c), COMPUTES);
      AllIdsOfOne(Genesis(c), STORAGES);
    } else {
      var before, e := events[..|events| - 1], Last(events);
      RunOrderly(c, before);
      RunConsistent(c, before);
      if e.Mine? {
        MiningKeepsOrderly(c, Run(c, before), e.miner, e.time);
      } else {
        AddingKeepsOrderly(c, Run(c, before), e);
      }
    }
  }

  ghost predicate OrderlyBlocks(chain: seq<Block>)
  {
    Distinct(AllIds(chain, RECEIPTS)) && Distinct(AllIds(chain, COMPUTES)) && Distinct(AllIds(chain, STORAGES))
  }

  /** No id of the pools of s is in a block of the chain at an index from n on. */
  ghost predicate NeverAgain(s: State, chain: seq<Block>, n: nat)
  {
    forall i :: n <= i < |chain| ==>
      && (forall p :: p in s.pendingProofs ==> p.receiptId !in RECEIPTS(chain[i]))
      && (forall p :: p in s.pendingCompute ==> p.proofId !in COMPUTES(chain[i]))
      && (forall p :: p in s.pendingStorage ==> p.proofId !in STORAGES(chain[i]))
  }

  lemma {:induction false} TakenOnce(s: State, chain: seq<Block>, n: nat)
    requires OrderlyBlocks(chain)
    requires 0 < n <= |chain|
    requires chain[n - 1].bandwidthProofs == s.pendingProofs && chain[n - 1].computeProofs == s.pendingCompute
    requires chain[n - 1].storageProofs == s.pendingStorage
    ensures NeverAgain(s, chain, n)
  {
    forall i, p | n <= i < |chain| && p in s.pendingProofs ensures p.receiptId !in RECEIPTS(chain[i]) {
      var k :| 0 <= k < |s.pendingProofs| && s.pendingProofs[k] == p;
      assert RECEIPTS(chain[n - 1])[k] == p.receiptId;
      NotAgain(chain, RECEIPTS, n - 1, i, p.receiptId);
    }
    forall i, p | n <= i < |chain| && p in s.pendingCompute ensures p.proofId !in COMPUTES(chain[i]) {
      var k :| 0 <= k < |s.pendingCompute| && s.pendingCompute[k] == p;
      assert COMPUTES(chain[n - 1])[k] == p.proofId;
      NotAgain(chain, COMPUTES, n - 1, i, p.proofId);
    }
    forall i, p | n <= i < |chain| && p in s.pendingStorage ensures p.proofId !in STORAGES(chain[i]) {
      var k :| 0 <= k < |s.pendingStorage| && s.pendingStorage[k] == p;
      assert STORAGES(chain[n - 1])[k] == p.proofId;
      NotAgain(chain, STORAGES, n - 1, i, p.proofId);
    }
  }

  /** Over local runs: a block that is mined holds every proof that was pending, of all three kinds and in
      order; none of them is pending afterwards, all are spent, and none is in any later block. */
  lemma {:induction false} ServicesPaidOnce(c: Crypto, events: seq<Event>, miner: string, time: real, later: seq<Event>)
    requires OnlyLocalBlocks(events) && OnlyLocalBlocks(later)
    requires |Run(c, events + [Mine(miner, time)]).chain| > |Run(c, events).chain|
    ensures
      var s, s' := Run(c, events), Run(c, events + [Mine(miner, time)]);
      && TakesPools(s, s', Last(s'.chain))
      && NeverAgain(s, Run(c, events + [Mine(miner, time)] + later).chain, |s'.chain|)
  {
    var mined := events + [Mine(miner, time)];
    MinedTakesPools(c, events, miner, time);
    assert (mined + later)[..|mined|] == mined;
    LaterOrderly(c, mined, mined + later);
    TakenOnce(Run(c, events), Run(c, mined + later).chain, |Run(c, mined).chain|);
  }

  lemma {:induction false} MinedTakesPools(c: Crypto, events: seq<Event>, miner: string, time: real)
    requires OnlyLocalBlocks(events)
    requires |Run(c, events + [Mine(miner, time)]).chain| > |Run(c, events).chain|
    ensures
      var s, s' := Run(c, events), Run(c, events + [Mine(miner, time)]);
      |s'.chain| == |s.chain| + 1 && TakesPools(s, s', Last(s'.chain))
  {
    assert (events + [Mine(miner, time)])[..|events|] == events;
    RunOrderly(c, events);
    RunConsistent(c, events);
    MineTakesPools(c, Run(c, events), miner, time);
  }

  lemma {:induction false} LaterOrderly(c: Crypto, events: seq<Event>, all: seq<Event>)
    requires OnlyLocalBlocks(all) && |events| <= |all| && all[..|events|] == events
    ensures Run(c, events).chain <= Run(c, all).chain && OrderlyBlocks(Run(c, all).chain)
  {
    RunOrderly(c, all);
    RunExtendsPrefix(c, all, |events|);
    OrderlyChain(Run(c, all));
  }

  lemma {:induction false} OrderlyChain(s: State)
    requires Orderly(s)
    ensures OrderlyBlocks(s.chain)
  {
    DistinctParts(AllIds(s.chain, RECEIPTS), ReceiptIds(s.pendingProofs));
    DistinctParts(AllIds(s.chain, COMPUTES), ComputeIds(s.pendingCompute));
    DistinctParts(AllIds(s.chain, STORAGES), StorageIds(s.pendingStorage));
  }

  // ---------------------------------------------------------------- what the services are worth

  /** Bandwidth is paid by the byte, one coin a gigabyte, however it is cut into proofs. */
  lemma {:induction false} BandwidthPaidByTheByte(ps: seq<BandwidthProof>)
    ensures BandwidthTotal(ps) == TotalBytes(ps) as real * 100_000_000.0 / 1_073_741_824.0
  {
    if ps != [] { BandwidthPaidByTheByte(ps[..|ps| - 1]); }
  }

  /** Compute earns the agreed price, or two coins an hour and a tenth of a coin a gigabyte where that is
      more, rounded. */
  lemma {:induction false} ComputePaidByRate(p: ComputeProofRecord)
    ensures
      var rate := p.computeSeconds / 3600.0 * 200_000_000.0 + p.bytesProcessed as real / 1_073_741_824.0 * 10_000_000.0;
      && ComputeReward(p) >= p.price && rate - 0.5 <= ComputeReward(p) as real
      && (ComputeReward(p) == p.price || ComputeReward(p) as real <= rate + 0.5)
  {}
}
