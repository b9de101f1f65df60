/** Whole runs of the ledger: the incremental validator and the full one agree, and the
    difficulty stays in its window. */
module ChainValidity {
  import opened Numbers
  import opened Wrappers
  import opened Economics
  import opened Transactions
  import opened Blocks
  import opened Ledger

  // ---------------------------------------------------------------- step validation implies full validation

  /** What add_block checks and validate_chain does not. */
  ghost predicate StepOnly(c: Crypto, chain: seq<Block>, spent: set<string>, b: Block)
  {
    && b.index == |chain|
    && (forall p :: p in b.bandwidthProofs ==> p.receiptId !in spent && VerifyBandwidth(c, p))
    && (forall p :: p in b.storageProofs ==> VerifyStorage(c, p))
    && (forall tx :: tx in b.transactions && IsUser(tx) ==> VerifyTx(c, tx))
  }

  /** The two validators, exactly: on a valid chain, add_block takes a block if and only if the longer
      chain passes full validation and the index, the receipts and all signatures are in order. Full
      validation alone, all that replace_chain asks for, looks at none of these. */
  lemma {:induction false} StepIsFullAndMore(c: Crypto, chain: seq<Block>, spent: set<string>, b: Block)
    requires chain != [] && ValidChain(c, chain)
    ensures Acceptable(c, chain, spent, b) <==> ValidChain(c, chain + [b]) && StepOnly(c, chain, spent, b)
  {
    var longer, n := chain + [b], |chain|;
    NewLink(c, chain, b);
    if LinkValid(c, longer, n) {
      forall i | 0 < i < |longer| ensures LinkValid(c, longer, i) {
        if i < n {
          assert LinkValid(c, chain, i);
          assert longer[i] == chain[i] && longer[i - 1] == chain[i - 1];
        }
      }
    }
  }

  /** The last link recomputes the difficulty that the step computes from the shorter chain. */
  lemma {:induction false} NewLink(c: Crypto, chain: seq<Block>, b: Block)
    requires chain != []
    ensures LinkValid(c, chain + [b], |chain|) <==>
      && b.previousHash == Last(chain).blockHash && b.difficulty == ComputeNextDifficulty(chain)
      && b.blockHash == ComputeHash(c, b) && TotalBytes(b.bandwidthProofs) >= b.difficulty
  {}

  /** A block above the genesis that is paid for by a receipt nobody signed. */
  function UnsignedBlock(c: Crypto): Block
  {
    var p := BandwidthProof("r", "relay", "client", MIN_DIFFICULTY, 0.0, "session", "", "");
    var b := Block(1, 0.0, Genesis(c).blockHash, "miner", [p], [], [], [], "", MIN_DIFFICULTY);
    b.(blockHash := ComputeHash(c, b))
  }

  /** add_block refuses that block for its signature; replace_chain takes the chain that ends with it. */
  lemma {:induction false} ReplacementTakesUnsigned(c: Crypto)
    ensures Step(c, Initial(c), ReceiveBlock(UnsignedBlock(c))) == Initial(c)
    ensures ValidateBlock(c, [Genesis(c)], {}, UnsignedBlock(c)) == Invalid(BandwidthSignature("r"))
    ensures Step(c, Initial(c), ReceiveChain([Genesis(c), UnsignedBlock(c)])).chain == [Genesis(c), UnsignedBlock(c)]
  {
    var g, b := Genesis(c), UnsignedBlock(c);
    var ps := b.bandwidthProofs;
    assert ps[..|ps| - 1] == [];
    assert TotalBytes(ps) == MIN_DIFFICULTY;
    assert CheckBandwidth(c, {}, ps[..|ps| - 1]) == Verdict.Valid;
    assert CheckBandwidth(c, {}, ps) == Invalid(BandwidthSignature("r"));
    assert ComputeNextDifficulty([g]) == MIN_DIFFICULTY;
    assert LinkValid(c, [g, b], 1);
  }

  lemma {:induction false} AppendKeepsChainValid(c: Crypto, chain: seq<Block>, spent: set<string>, b: Block)
    requires chain != [] && ValidChain(c, chain) && Acceptable(c, chain, spent, b)
    ensures ValidChain(c, chain + [b])
  {
    StepIsFullAndMore(c, chain, spent, b);
  }

  lemma {:induction false} StepKeepsChainValid(c: Crypto, s: State, e: Event)
    requires s.chain != [] && ValidChain(c, s.chain)
    ensures ValidChain(c, Step(c, s, e).chain)
  {
    var candidate := CandidateBlock(c, s, e);
    if candidate.Some? {
      ValidateBlockMeaning(c, s.chain, s.spentReceipts, candidate.value);
      if Acceptable(c, s.chain, s.spentReceipts, candidate.value) {
        AppendKeepsChainValid(c, s.chain, s.spentReceipts, candidate.value);
      }
    }
  }

  /** The block an event offers to add_block, if any. */
  function CandidateBlock(c: Crypto, s: State, e: Event): Option<Block>
    requires s.chain != []
  {
    match e
    case ReceiveBlock(b) => Some(b)
    case Mine(miner, time) => CreateBlock(c, s, miner, time, [], [])
    case _ => None
  }

  /** After any interleaving of intake, add_block, mining and replace_chain, validate_chain holds. */
  lemma {:induction false} RunKeepsChainValid(c: Crypto, events: seq<Event>)
    ensures ValidChain(c, Run(c, events).chain)
  {
    if events != [] {
      RunKeepsChainValid(c, events[..|events| - 1]);
      StepKeepsChainValid(c, Run(c, events[..|events| - 1]), Last(events));
    }
  }

  // ---------------------------------------------------------------- length

  /** The chain grows by one on an accepted block, grows on an accepted replacement, and is
      untouched by every other event. */
  lemma {:induction false} StepLength(c: Crypto, s: State, e: Event)
    requires s.chain != []
    ensures
      var s' := Step(c, s, e);
      var candidate := CandidateBlock(c, s, e);
      if e.ReceiveChain? && AcceptsChain(c, s, e.newChain) then |s'.chain| > |s.chain| && s'.chain == e.newChain
      else if candidate.Some? && Acceptable(c, s.chain, s.spentReceipts, candidate.value)
      then s'.chain == s.chain + [candidate.value]
      else s'.chain == s.chain
  {
    var candidate := CandidateBlock(c, s, e);
    if candidate.Some? {
      ValidateBlockMeaning(c, s.chain, s.spentReceipts, candidate.value);
    }
  }

  /** Chain length never decreases along a run. */
  lemma {:induction false} RunNeverShrinks(c: Crypto, events: seq<Event>, earlier: nat)
    requires earlier <= |events|
    ensures |Run(c, events[..earlier]).chain| <= |Run(c, events).chain|
  {
    if earlier < |events| {
      var init := events[..|events| - 1];
      RunNeverShrinks(c, init, earlier);
      assert init[..earlier] == events[..earlier];
      StepLength(c, Run(c, init), Last(events));
    } else {
      assert events[..earlier] == events;
    }
  }

  ghost predicate NoReplacement(events: seq<Event>)
  {
    forall i :: 0 <= i < |events| ==> !events[i].ReceiveChain?
  }

  /** Without replace_chain every earlier chain stays a prefix, so the genesis block stays first. */
  lemma {:induction false} RunExtendsPrefix(c: Crypto, events: seq<Event>, earlier: nat)
    requires NoReplacement(events) && earlier <= |events|
    ensures Run(c, events[..earlier]).chain <= Run(c, events).chain
    ensures Run(c, events).chain[0] == Genesis(c)
  {
    if |events| == 0 {
    } else {
      var init := events[..|events| - 1];
      StepLength(c, Run(c, init), Last(events));
      if earlier < |events| {
        RunExtendsPrefix(c, init, earlier);
        assert init[..earlier] == events[..earlier];
      } else {
        RunExtendsPrefix(c, init, |init|);
        assert events[..earlier] == events;
      }
    }
  }

  // ---------------------------------------------------------------- difficulty along a chain

  ghost predicate StartsAtFloor(chain: seq<Block>)
  {
    chain != [] && chain[0].difficulty == MIN_DIFFICULTY
  }

  lemma {:induction false} DifficultyInRange(c: Crypto, chain: seq<Block>, h: nat)
    requires ValidChain(c, chain) && StartsAtFloor(chain) && h < |chain|
    ensures MIN_DIFFICULTY <= chain[h].difficulty <= MAX_DIFFICULTY
  {
    if h > 0 {
      DifficultyInRange(c, chain, h - 1);
      assert LinkValid(c, chain, h);
    }
  }

  /** Difficulty is constant inside a window of 2016 blocks. */
  lemma {:induction false} DifficultyConstantInWindow(c: Crypto, chain: seq<Block>, g: nat, h: nat)
    requires ValidChain(c, chain) && g <= h < |chain| && g / 2016 == h / 2016
    ensures chain[g].difficulty == chain[h].difficulty
    decreases h
  {
    if g < h {
      assert (h - 1) / 2016 == g / 2016;
      DifficultyConstantInWindow(c, chain, g, h - 1);
      assert LinkValid(c, chain, h);
      assert h % 2016 != 0;
    }
  }

  /** At a window boundary it moves by at most a factor four, floored at the minimum. */
  lemma {:induction false} DifficultyAtBoundary(c: Crypto, chain: seq<Block>, h: nat)
    requires ValidChain(c, chain) && StartsAtFloor(chain) && 0 < h < |chain| && h % 2016 == 0
    ensures Max(MIN_DIFFICULTY, chain[h - 1].difficulty / 4) <= chain[h].difficulty
            <= Min(MAX_DIFFICULTY, 4 * chain[h - 1].difficulty)
  {
    assert LinkValid(c, chain, h);
    DifficultyInRange(c, chain, h - 1);
    RetargetIsClamped(chain[h - 1].difficulty, chain[h - 2016].timestamp, chain[h - 1].timestamp);
  }

  /** So h blocks above the genesis it is at most 4^(h div 2016) times the minimum. */
  lemma {:induction false} DifficultyGrowthBound(c: Crypto, chain: seq<Block>, h: nat)
    requires ValidChain(c, chain) && StartsAtFloor(chain) && h < |chain|
    ensures chain[h].difficulty <= MIN_DIFFICULTY * Pow4(h / 2016)
  {
    if h > 0 {
      DifficultyGrowthBound(c, chain, h - 1);
      if h % 2016 == 0 {
        DifficultyAtBoundary(c, chain, h);
        assert h / 2016 == (h - 1) / 2016 + 1;
      } else {
        assert h / 2016 == (h - 1) / 2016;
        DifficultyConstantInWindow(c, chain, h - 1, h);
      }
    }
  }

  /** Bytes proven by the blocks 1..h. */
  function ProvenBytes(chain: seq<Block>, h: nat): int
    requires h < |chain|
  {
    if h == 0 then 0 else ProvenBytes(chain, h - 1) + TotalBytes(chain[h].bandwidthProofs)
  }

  /** Every block above the genesis pays for its place: h blocks prove at least h minima. */
  lemma {:induction false} ProvenWork(c: Crypto, chain: seq<Block>, h: nat)
    requires ValidChain(c, chain) && StartsAtFloor(chain) && h < |chain|
    ensures ProvenBytes(chain, h) >= h * MIN_DIFFICULTY
  {
    if h > 0 {
      ProvenWork(c, chain, h - 1);
      DifficultyInRange(c, chain, h);
      assert LinkValid(c, chain, h);
    }
  }

  /** Every chain that replace_chain is offered starts at the minimum, as the genesis block does. */
  ghost predicate OffersStartAtFloor(events: seq<Event>)
  {
    forall i :: 0 <= i < |events| && events[i].ReceiveChain? ==> StartsAtFloor(events[i].newChain)
  }

  lemma {:induction false} RunStartsAtFloor(c: Crypto, events: seq<Event>)
    requires OffersStartAtFloor(events)
    ensures StartsAtFloor(Run(c, events).chain)
  {
    if events != [] {
      var before := events[..|events| - 1];
      RunStartsAtFloor(c, before);
      StepLength(c, Run(c, before), Last(events));
    }
  }

  /** The difficulty facts for every chain that a run can reach: range, growth, work, constancy inside a
      window, and the factor of four at its end. */
  lemma {:induction false} RunDifficulty(c: Crypto, events: seq<Event>, g: nat, h: nat)
    requires OffersStartAtFloor(events) && g <= h < |Run(c, events).chain|
    ensures
      var chain := Run(c, events).chain;
      && MIN_DIFFICULTY <= chain[h].difficulty <= MAX_DIFFICULTY
      && chain[h].difficulty <= MIN_DIFFICULTY * Pow4(h / 2016)
      && ProvenBytes(chain, h) >= h * MIN_DIFFICULTY
      && (g / 2016 == h / 2016 ==> chain[g].difficulty == chain[h].difficulty)
      && (h > 0 && h % 2016 == 0 ==>
            Max(MIN_DIFFICULTY, chain[h - 1].difficulty / 4) <= chain[h].difficulty
            <= Min(MAX_DIFFICULTY, 4 * chain[h - 1].difficulty))
  {
    var chain := Run(c, events).chain;
    RunKeepsChainValid(c, events);
    RunStartsAtFloor(c, events);
    DifficultyInRange(c, chain, h);
    DifficultyGrowthBound(c, chain, h);
    ProvenWork(c, chain, h);
    if g / 2016 == h / 2016 { DifficultyConstantInWindow(c, chain, g, h); }
    if h > 0 && h % 2016 == 0 { DifficultyAtBoundary(c, chain, h); }
  }
}
