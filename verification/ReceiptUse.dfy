/** How often a bandwidth receipt is paid. Block validation compares the receipts of a block with those of
    earlier blocks only, never with each other. */
module ReceiptUse {
  import opened Wrappers
  import opened Economics
  import opened Sequences
  import opened Transactions
  import opened Blocks
  import opened Ledger
  import opened ChainValidity
  import opened Accounting
  import opened Mining

  // ---------------------------------------------------------------- one proof, listed twice

  /** The first block above the genesis, paid for by these proofs. */
  function PaidBy(c: Crypto, ps: seq<BandwidthProof>): Block
  {
    var b := Block(1, 0.0, Genesis(c).blockHash, "miner", ps, [], [], [], "", MIN_DIFFICULTY);
    b.(blockHash := ComputeHash(c, b))
  }

  /** A proof of half the required bytes pays for a block that lists it twice, and for no block that lists
      it once. */
  lemma {:induction false} TwiceIsEnough(c: Crypto, p: BandwidthProof)
    requires VerifyBandwidth(c, p) && p.bytesForwarded < MIN_DIFFICULTY <= 2 * p.bytesForwarded
    ensures Run(c, [ReceiveBlock(PaidBy(c, [p, p]))]).chain == [Genesis(c), PaidBy(c, [p, p])]
    ensures Run(c, [ReceiveBlock(PaidBy(c, [p]))]).chain == [Genesis(c)]
  {
    var once, twice := PaidBy(c, [p]), PaidBy(c, [p, p]);
    assert [ReceiveBlock(once)][..0] == [] && [ReceiveBlock(twice)][..0] == [];
    assert [p][..0] == [] && [p, p][..1] == [p];
    assert TotalBytes([p, p]) == TotalBytes([p]) + p.bytesForwarded;
    ValidateBlockMeaning(c, [Genesis(c)], {}, twice);
  }

  // ---------------------------------------------------------------- every receipt of a chain

  ghost predicate Distinct(ids: seq<string>)
  {
    forall id :: multiset(ids)[id] <= 1
  }

  /** The receipt ids of all blocks, one after the other. */
  function AllReceipts(chain: seq<Block>): seq<string>
  {
    if chain == [] then []
    else AllReceipts(chain[..|chain| - 1]) + ReceiptIds(Last(chain).bandwidthProofs)
  }

  /** No receipt is counted twice anywhere on the chain. */
  ghost predicate UsedOnce(chain: seq<Block>)
  {
    Distinct(AllReceipts(chain))
  }

  lemma {:induction false} AllReceiptsAreSpent(chain: seq<Block>)
    ensures Elements(AllReceipts(chain)) == ReceiptsOf(chain)
  {
    if chain != [] {
      AllReceiptsAreSpent(chain[..|chain| - 1]);
      ElementsConcat(AllReceipts(chain[..|chain| - 1]), ReceiptIds(Last(chain).bandwidthProofs));
    }
  }

  lemma {:induction false} ElementsConcat(a: seq<string>, b: seq<string>)
    ensures Elements(a + b) == Elements(a) + Elements(b)
  {}

  lemma {:induction false} DistinctConcat(a: seq<string>, b: seq<string>)
    requires Elements(a) !! Elements(b)
    ensures Distinct(a + b) <==> Distinct(a) && Distinct(b)
  {
    forall id ensures multiset(a + b)[id] == multiset(a)[id] + multiset(b)[id] {}
    if Distinct(a + b) {
      forall id ensures multiset(a)[id] <= 1 && multiset(b)[id] <= 1 { assert multiset(a + b)[id] <= 1; }
    }
    if Distinct(a) && Distinct(b) {
      forall id ensures multiset(a + b)[id] <= 1 {
        assert (id in multiset(a) ==> id in Elements(a)) && (id in multiset(b) ==> id in Elements(b));
      }
    }
  }

  /** An accepted block keeps the chain's receipts used once exactly when its own are distinct. */
  lemma {:induction false} OneMoreBlock(c: Crypto, s: State, b: Block)
    requires s.chain != [] && Consistent(s) && Acceptable(c, s.chain, s.spentReceipts, b)
    ensures UsedOnce(s.chain + [b]) <==> UsedOnce(s.chain) && Distinct(ReceiptIds(b.bandwidthProofs))
  {
    var longer, ids := s.chain + [b], ReceiptIds(b.bandwidthProofs);
    assert longer[..|longer| - 1] == s.chain;
    AllReceiptsAreSpent(s.chain);
    forall id | id in Elements(ids) ensures id !in Elements(AllReceipts(s.chain)) {
      var i :| 0 <= i < |ids| && ids[i] == id;
      assert b.bandwidthProofs[i] in b.bandwidthProofs;
    }
    DistinctConcat(AllReceipts(s.chain), ids);
  }

  // ---------------------------------------------------------------- the pool

  lemma {:induction false} KeptIds(ps: seq<BandwidthProof>, ids: set<string>, id: string)
    ensures multiset(ReceiptIds(WithoutProofs(ps, ids)))[id] <= multiset(ReceiptIds(ps))[id]
  {
    if ps != [] {
      var init, p := ps[..|ps| - 1], Last(ps);
      KeptIds(init, ids, id);
      assert ReceiptIds(ps) == ReceiptIds(init) + [p.receiptId];
      if p.receiptId !in ids {
        assert ReceiptIds(WithoutProofs(ps, ids)) == ReceiptIds(WithoutProofs(init, ids)) + [p.receiptId];
      }
    }
  }

  lemma {:induction false} FilteringKeepsDistinct(ps: seq<BandwidthProof>, ids: set<string>)
    requires Distinct(ReceiptIds(ps))
    ensures Distinct(ReceiptIds(WithoutProofs(ps, ids)))
  {
    forall id ensures multiset(ReceiptIds(WithoutProofs(ps, ids)))[id] <= 1 { KeptIds(ps, ids, id); }
  }

  lemma {:induction false} AddingKeepsDistinct(s: State, p: BandwidthProof)
    requires Distinct(ReceiptIds(s.pendingProofs)) && AcceptsProof(s, p)
    ensures Distinct(ReceiptIds(AddProof(s, p).pendingProofs))
  {
    var ids := ReceiptIds(s.pendingProofs);
    assert ReceiptIds(s.pendingProofs + [p]) == ids + [p.receiptId];
    DistinctConcat(ids, [p.receiptId]);
  }

  /** In every run the pool holds each receipt once. */
  lemma {:induction false} PoolIsDistinct(c: Crypto, events: seq<Event>)
    ensures Distinct(ReceiptIds(Run(c, events).pendingProofs))
  {
    if events != [] {
      var s, e := Run(c, events[..|events| - 1]), Last(events);
      PoolIsDistinct(c, events[..|events| - 1]);
      if e.SubmitProof? && AcceptsProof(s, e.proof) { AddingKeepsDistinct(s, e.proof); }
      var candidate := CandidateBlock(c, s, e);
      if candidate.Some? {
        FilteringKeepsDistinct(s.pendingProofs, Elements(ReceiptIds(candidate.value.bandwidthProofs)));
      }
    }
  }

  /** So a mined block lists each receipt once. */
  lemma {:induction false} MinedReceiptsDistinct(c: Crypto, s: State, miner: string, time: real)
    requires s.chain != [] && Distinct(ReceiptIds(s.pendingProofs)) && CreateBlock(c, s, miner, time, [], []).Some?
    ensures Distinct(ReceiptIds(CreateBlock(c, s, miner, time, [], []).value.bandwidthProofs))
  {
    FilteringKeepsDistinct(s.pendingProofs, s.spentReceipts);
  }

  // ---------------------------------------------------------------- whole runs

  /** Event k brings a block from elsewhere that is accepted. */
  ghost predicate TakesBlock(c: Crypto, events: seq<Event>, k: nat)
  {
    && k < |events| && events[k].ReceiveBlock?
    && var s := Run(c, events[..k]); Acceptable(c, s.chain, s.spentReceipts, events[k].block)
  }

  ghost predicate TakesDistinct(c: Crypto, events: seq<Event>)
  {
    forall k: nat :: TakesBlock(c, events, k) ==> Distinct(ReceiptIds(events[k].block.bandwidthProofs))
  }

  /** Without replace_chain no receipt is counted twice if and only if every block that was taken from
      elsewhere lists its receipts once. */
  lemma {:induction false} ReceiptsCountOnceExactly(c: Crypto, events: seq<Event>)
    requires NoReplacement(events)
    ensures UsedOnce(Run(c, events).chain) <==> TakesDistinct(c, events)
  {
    if events == [] {
      GenesisUsesNone(c);
    } else {
      var n := |events| - 1;
      ReceiptsCountOnceExactly(c, events[..n]);
      TakesOneMore(c, events, n);
      CountsOneMore(c, events[..n], events[n]);
    }
  }

  lemma {:induction false} GenesisUsesNone(c: Crypto)
    ensures UsedOnce([Genesis(c)])
  {
    assert [Genesis(c)][..0] == [];
    assert AllReceipts([Genesis(c)]) == [];
  }

  lemma {:induction false} TakesOneMore(c: Crypto, events: seq<Event>, n: nat)
    requires n == |events| - 1
    ensures TakesDistinct(c, events) <==>
      && TakesDistinct(c, events[..n])
      && (TakesBlock(c, events, n) ==> Distinct(ReceiptIds(events[n].block.bandwidthProofs)))
  {
    forall k: nat | k < n ensures TakesBlock(c, events, k) == TakesBlock(c, events[..n], k) {
      assert events[..n][..k] == events[..k];
    }
    if TakesDistinct(c, events) {
      forall k: nat | TakesBlock(c, events[..n], k) ensures Distinct(ReceiptIds(events[k].block.bandwidthProofs)) {
        assert TakesBlock(c, events, k);
      }
    }
  }

  lemma {:induction false} CountsOneMore(c: Crypto, before: seq<Event>, e: Event)
    requires !e.ReceiveChain?
    ensures
      var s := Run(c, before);
      UsedOnce(Step(c, s, e).chain) <==>
        && UsedOnce(s.chain)
        && (e.ReceiveBlock? && Acceptable(c, s.chain, s.spentReceipts, e.block) ==>
              Distinct(ReceiptIds(e.block.bandwidthProofs)))
  {
    var s := Run(c, before);
    RunConsistent(c, before);
    StepLength(c, s, e);
    var candidate := CandidateBlock(c, s, e);
    if candidate.Some? && Acceptable(c, s.chain, s.spentReceipts, candidate.value) {
      OneMoreBlock(c, s, candidate.value);
      if e.Mine? {
        PoolIsDistinct(c, before);
        MinedReceiptsDistinct(c, s, e.miner, e.time);
      }
    }
  }

  /** A node that only mines never counts a receipt twice. */
  lemma {:induction false} LocalReceiptsCountOnce(c: Crypto, events: seq<Event>)
    requires OnlyLocalBlocks(events)
    ensures UsedOnce(Run(c, events).chain)
  {
    LocalTakesNone(c, events);
    ReceiptsCountOnceExactly(c, events);
  }

  lemma {:induction false} LocalTakesNone(c: Crypto, events: seq<Event>)
    requires OnlyLocalBlocks(events)
    ensures NoReplacement(events) && TakesDistinct(c, events)
  {
    forall k: nat | k < |events| ensures !TakesBlock(c, events, k) && !events[k].ReceiveChain? {}
  }
}
