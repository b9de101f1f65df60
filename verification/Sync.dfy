/** Fork search and catch-up from a peer (border/p2p/sync.py). */
module ChainSync {
  import opened Numbers
  import opened Wrappers
  import opened Economics
  import opened Transactions
  import opened Blocks
  import opened Ledger
  import opened ChainValidity
  import opened Accounting
  import opened ChainObject

  const BATCH_SIZE: int := 50
  const SERVER_CAP: int := 200

  /** A remote node as its answers: a reported height, a hash per index (None on any failure), and a
      list of blocks per request, in which None is an entry that does not parse. */
  datatype Peer = Peer(
    chainHeight: int,
    hashAt: int -> Option<string>,
    blocks: (int, int) -> seq<Option<Block>>)

  /** The test of the search: the peer answered a non-empty hash and it is ours. */
  predicate Agrees(chain: seq<Block>, peer: Peer, index: int)
  {
    var theirs := peer.hashAt(index);
    theirs.Some? && theirs.value != "" && theirs == HashAt(chain, index)
  }

  // ---------------------------------------------------------------- fork search

  function Search(chain: seq<Block>, peer: Peer, lo: int, hi: int): (r: int)
    requires 0 <= lo
    ensures lo <= r && (lo <= hi ==> r <= hi)
    ensures r == lo || Agrees(chain, peer, r)
    ensures r >= hi || !Agrees(chain, peer, r + 1)
    decreases hi - lo
  {
    if lo >= hi then lo
    else
      var mid := (lo + hi + 1) / 2;
      if Agrees(chain, peer, mid) then Search(chain, peer, mid, hi)
      else Search(chain, peer, lo, mid - 1)
  }

  lemma {:induction false} SearchHalves(chain: seq<Block>, peer: Peer, lo: int, hi: int, mid: int)
    requires 0 <= lo < hi && mid == (lo + hi + 1) / 2
    ensures lo < mid <= hi
    ensures Search(chain, peer, lo, hi)
         == if Agrees(chain, peer, mid) then Search(chain, peer, mid, hi) else Search(chain, peer, lo, mid - 1)
  {}

  function FindFork(chain: seq<Block>, peer: Peer, ourHeight: nat): (r: int)
    ensures 0 <= r <= ourHeight
  {
    if Agrees(chain, peer, ourHeight) then ourHeight
    else Search(chain, peer, 0, Min(ourHeight, peer.chainHeight))
  }

  /** The block at an index carries its own hash and names its predecessor's. */
  ghost predicate LinkedAt(c: Crypto, chain: seq<Block>, i: nat)
    requires i < |chain|
  {
    && chain[i].blockHash == ComputeHash(c, chain[i])
    && (i > 0 ==> chain[i].previousHash == chain[i - 1].blockHash)
  }

  ghost predicate HashLinked(c: Crypto, chain: seq<Block>)
  {
    chain != [] && forall i :: 0 <= i < |chain| ==> LinkedAt(c, chain, i)
  }

  /** The blocks agree in everything acceptance of a later block can depend on. */
  ghost predicate Alike(a: Block, b: Block)
  {
    && a.blockHash == b.blockHash
    && a.difficulty == b.difficulty
    && a.timestamp == b.timestamp
    && multiset(ReceiptIds(a.bandwidthProofs)) == multiset(ReceiptIds(b.bandwidthProofs))
  }

  /** The two blocks do not witness a collision: equal digests come from equal contents. */
  ghost predicate NoCollision(c: Crypto, a: Block, b: Block)
  {
    c.blockDigest(Contents(c, a)) == c.blockDigest(Contents(c, b)) ==> Contents(c, a) == Contents(c, b)
  }

  /** What is asked of the hash: no collision between the blocks that two chains have at one index. */
  ghost predicate CollisionFree(c: Crypto, ours: seq<Block>, theirs: seq<Block>)
  {
    forall i :: 0 <= i < |ours| && i < |theirs| ==> NoCollision(c, ours[i], theirs[i])
  }

  lemma {:induction false} EqualHashesAlike(c: Crypto, a: Block, b: Block)
    requires NoCollision(c, a, b) && a.blockHash == ComputeHash(c, a) && b.blockHash == ComputeHash(c, b)
    requires a.blockHash == b.blockHash
    ensures Alike(a, b) && a.previousHash == b.previousHash
  {}

  /** Equal hashes at an index force agreement there and at every index below. */
  lemma {:induction false} HashesEqualBelow(c: Crypto, a: seq<Block>, b: seq<Block>, i: nat, j: nat)
    requires CollisionFree(c, a, b) && HashLinked(c, a) && HashLinked(c, b)
    requires i <= j < |a| && j < |b| && a[j].blockHash == b[j].blockHash
    ensures Alike(a[i], b[i])
    decreases j
  {
    assert LinkedAt(c, a, j) && LinkedAt(c, b, j) && NoCollision(c, a[j], b[j]);
    EqualHashesAlike(c, a[j], b[j]);
    if i < j {
      HashesEqualBelow(c, a, b, i, j - 1);
    }
  }

  /** A peer that answers from one chain, whose hashes are not empty, and does not overstate its height. */
  ghost predicate Honest(peer: Peer, theirs: seq<Block>)
  {
    && peer.chainHeight < |theirs|
    && (forall i :: 0 <= i < |theirs| ==> theirs[i].blockHash != "")
    && (forall i :: peer.hashAt(i) == HashAt(theirs, i))
    && ServesFrom(peer, theirs)
  }

  /** The block endpoint: at most 201 blocks, clamped to the chain. */
  function Served(chain: seq<Block>, start: int, end: int): seq<Option<Block>>
    requires 0 <= start
  {
    var hi := Min(Min(end, start + SERVER_CAP) + 1, |chain|);
    if start >= hi then [] else seq(hi - start, i requires 0 <= i < hi - start => Some(chain[start + i]))
  }

  /** A node that answers from its chain, as the endpoints do. */
  function NodeAsPeer(chain: seq<Block>): Peer
  {
    Peer(|chain| - 1, (i: int) => HashAt(chain, i),
         (start: int, end: int) => if start < 0 then [] else Served(chain, start, end))
  }

  /** Such a node is honest whenever no block of its chain has an empty hash, and a chain and its prefixes
      have no collision between them. */
  lemma {:induction false} NodesAreHonest(c: Crypto, ours: seq<Block>, theirs: seq<Block>)
    requires theirs != [] && ours <= theirs
    ensures Honest(NodeAsPeer(theirs), theirs) <==> forall i :: 0 <= i < |theirs| ==> theirs[i].blockHash != ""
    ensures CollisionFree(c, ours, theirs)
  {}

  lemma {:induction false} HonestAgreement(ours: seq<Block>, peer: Peer, theirs: seq<Block>, i: nat)
    requires Honest(peer, theirs) && i < |ours|
    ensures Agrees(ours, peer, i) <==> i < |theirs| && ours[i].blockHash == theirs[i].blockHash
  {
    assert peer.hashAt(i) == HashAt(theirs, i);
  }

  /** Both chains have a block at the index, with the same hash. */
  predicate Common(ours: seq<Block>, theirs: seq<Block>, i: int)
  {
    0 <= i < |ours| && i < |theirs| && ours[i].blockHash == theirs[i].blockHash
  }

  lemma {:induction false} CommonBelow(c: Crypto, ours: seq<Block>, theirs: seq<Block>, i: nat, j: nat)
    requires CollisionFree(c, ours, theirs) && HashLinked(c, ours) && HashLinked(c, theirs)
    requires i <= j && Common(ours, theirs, j)
    ensures Common(ours, theirs, i)
  {
    HashesEqualBelow(c, ours, theirs, i, j);
  }

  /** What the search alone guarantees: it stops at a common index or at 0, and below the tip only if the
      next index is not common. */
  lemma {:induction false} SearchStops(ours: seq<Block>, peer: Peer, theirs: seq<Block>, r: int)
    requires ours != [] && Honest(peer, theirs) && r == FindFork(ours, peer, |ours| - 1)
    requires peer.chainHeight >= |ours| - 1 || peer.chainHeight == |theirs| - 1
    ensures 0 <= r < |ours| && (r > 0 ==> Common(ours, theirs, r)) && !Common(ours, theirs, r + 1)
  {
    HonestAgreement(ours, peer, theirs, |ours| - 1);
    HonestAgreement(ours, peer, theirs, r);
    if r < |ours| - 1 { HonestAgreement(ours, peer, theirs, r + 1); }
  }

  /** The fork search returns the highest common index whenever there is one, that is, exactly when
      the genesis hashes agree; without a common block it returns 0, not the -1 its caller expects. */
  lemma {:induction false} ForkIsHighestCommon(c: Crypto, ours: seq<Block>, peer: Peer, theirs: seq<Block>)
    requires CollisionFree(c, ours, theirs) && HashLinked(c, ours) && HashLinked(c, theirs) && Honest(peer, theirs)
    requires peer.chainHeight >= |ours| - 1 || peer.chainHeight == |theirs| - 1
    ensures
      var r := FindFork(ours, peer, |ours| - 1);
      && (ours[0].blockHash == theirs[0].blockHash ==> Common(ours, theirs, r))
      && (ours[0].blockHash != theirs[0].blockHash ==> r == 0)
      && (forall j :: j > r ==> !Common(ours, theirs, j))
  {
    var r := FindFork(ours, peer, |ours| - 1);
    SearchStops(ours, peer, theirs, r);
    if r > 0 { CommonBelow(c, ours, theirs, 0, r); }
    forall j | j > r ensures !Common(ours, theirs, j) {
      NoneAbove(c, ours, theirs, r, j);
    }
  }

  lemma {:induction false} NoneAbove(c: Crypto, ours: seq<Block>, theirs: seq<Block>, r: nat, j: int)
    requires CollisionFree(c, ours, theirs) && HashLinked(c, ours) && HashLinked(c, theirs)
    requires j > r && !Common(ours, theirs, r + 1)
    ensures !Common(ours, theirs, j)
  {
    if Common(ours, theirs, j) { CommonBelow(c, ours, theirs, r + 1, j); }
  }

  /** Two chains without a common block: the search still answers 0. */
  lemma {:induction false} ForkOfStrangers(ours: Block, theirs: Block)
    requires ours.blockHash != theirs.blockHash
    ensures FindFork([ours], NodeAsPeer([theirs]), 0) == 0 && forall i :: !Common([ours], [theirs], i)
  {}

  // ---------------------------------------------------------------- catch-up

  /** A node's add_block as a function: the new ledger, or None on rejection. */
  type Adder = (State, Block) -> Option<State>

  function AddTo(c: Crypto, s: State, b: Block): Option<State>
  {
    if s.chain == [] || ValidateBlock(c, s.chain, s.spentReceipts, b).Invalid? then None
    else Some(AddBlock(c, s, b))
  }

  ghost predicate Offers(add: Adder, c: Crypto, s: State, b: Block)
  {
    add(s, b) == AddTo(c, s, b)
  }

  /** add is the add_block of a node that uses this cryptography. */
  ghost predicate IsAdder(add: Adder, c: Crypto)
  {
    forall s, b :: Offers(add, c, s, b)
  }

  function NodeAdder(c: Crypto): Adder
  {
    (s: State, b: Block) => AddTo(c, s, b)
  }

  lemma {:induction false} NodeIsAdder(c: Crypto)
    ensures IsAdder(NodeAdder(c), c)
  {}

  /** Feeds fetched entries to add_block in order; stops at the first that is rejected or malformed. */
  function ApplyBlocks(add: Adder, s: State, blocks: seq<Option<Block>>): (State, bool)
    decreases |blocks|
  {
    if blocks == [] then (s, true)
    else if blocks[0].None? || add(s, blocks[0].value).None? then (s, false)
    else ApplyBlocks(add, add(s, blocks[0].value).value, blocks[1..])
  }

  function SyncBatches(add: Adder, s: State, peer: Peer, start: int): State
    decreases peer.chainHeight - start + 1
  {
    if start > peer.chainHeight then s
    else
      var end := Min(start + BATCH_SIZE - 1, peer.chainHeight);
      var blocks := peer.blocks(start, end);
      if blocks == [] then s
      else
        var (s', ok) := ApplyBlocks(add, s, blocks);
        if ok then SyncBatches(add, s', peer, end + 1) else s'
  }

  /** _sync_from */
  function SyncFrom(add: Adder, s: State, peer: Peer): State
    requires s.chain != []
  {
    SyncBatches(add, s, peer, FindFork(s.chain, peer, |s.chain| - 1) + 1)
  }

  // ---------------------------------------------------------------- any peer at all

  /** The ledger can be reached from another by accepted blocks, so the old chain is a prefix. */
  ghost predicate Extends(s: State, s': State)
  {
    s.chain <= s'.chain && (|s'.chain| == |s.chain| ==> s' == s)
  }

  lemma {:induction false} ApplyBlocksExtends(c: Crypto, add: Adder, s: State, blocks: seq<Option<Block>>)
    requires IsAdder(add, c)
    ensures Extends(s, ApplyBlocks(add, s, blocks).0)
    decreases |blocks|
  {
    if blocks != [] && blocks[0].Some? && add(s, blocks[0].value).Some? {
      assert Offers(add, c, s, blocks[0].value);
      ApplyBlocksExtends(c, add, add(s, blocks[0].value).value, blocks[1..]);
    }
  }

  lemma {:induction false} SyncBatchesExtends(c: Crypto, add: Adder, s: State, peer: Peer, start: int)
    requires IsAdder(add, c)
    ensures Extends(s, SyncBatches(add, s, peer, start))
    decreases peer.chainHeight - start + 1
  {
    if start <= peer.chainHeight {
      var end := Min(start + BATCH_SIZE - 1, peer.chainHeight);
      var blocks := peer.blocks(start, end);
      ApplyBlocksExtends(c, add, s, blocks);
      SyncBatchesExtends(c, add, ApplyBlocks(add, s, blocks).0, peer, end + 1);
    }
  }

  /** Against any peer, honest or not, the sync ends and the old chain stays a prefix. */
  lemma {:induction false} SyncKeepsPrefix(c: Crypto, add: Adder, s: State, peer: Peer)
    requires IsAdder(add, c) && s.chain != []
    ensures Extends(s, SyncFrom(add, s, peer))
  {
    SyncBatchesExtends(c, add, s, peer, FindFork(s.chain, peer, |s.chain| - 1) + 1);
  }

  // ---------------------------------------------------------------- an honest peer

  ghost predicate AcceptableAt(c: Crypto, chain: seq<Block>, i: nat)
    requires 0 < i < |chain|
  {
    Acceptable(c, chain[..i], ReceiptsOf(chain[..i]), chain[i])
  }

  /** A chain built by add_block alone: every block acceptable on top of the ones before it. */
  ghost predicate BuiltByAddBlock(c: Crypto, chain: seq<Block>)
  {
    && chain != []
    && chain[0].blockHash == ComputeHash(c, chain[0])
    && forall i :: 0 < i < |chain| ==> AcceptableAt(c, chain, i)
  }

  lemma {:induction false} BuiltIsLinked(c: Crypto, chain: seq<Block>)
    requires BuiltByAddBlock(c, chain)
    ensures HashLinked(c, chain)
  {
    forall i | 0 <= i < |chain| ensures LinkedAt(c, chain, i) {
      if i > 0 { assert AcceptableAt(c, chain, i); }
    }
  }

  /** Every run without replace_chain builds such a chain. */
  lemma {:induction false} RunBuildsByAddBlock(c: Crypto, events: seq<Event>)
    requires NoReplacement(events)
    ensures BuiltByAddBlock(c, Run(c, events).chain)
  {
    if events != [] {
      var s, e := Run(c, events[..|events| - 1]), Last(events);
      RunBuildsByAddBlock(c, events[..|events| - 1]);
      RunConsistent(c, events[..|events| - 1]);
      StepLength(c, s, e);
      var candidate := CandidateBlock(c, s, e);
      if candidate.Some? && Acceptable(c, s.chain, s.spentReceipts, candidate.value) {
        var longer := s.chain + [candidate.value];
        forall i | 0 < i < |longer| ensures AcceptableAt(c, longer, i) {
          if i < |s.chain| {
            assert AcceptableAt(c, s.chain, i);
            assert longer[..i] == s.chain[..i];
          } else {
            assert longer[..i] == s.chain;
          }
        }
      }
    }
  }

  ghost predicate AlikeChains(a: seq<Block>, b: seq<Block>)
  {
    |a| == |b| && forall i :: 0 <= i < |a| ==> Alike(a[i], b[i])
  }

  lemma {:induction false} SameReceipts(a: seq<Block>, b: seq<Block>)
    requires AlikeChains(a, b)
    ensures ReceiptsOf(a) == ReceiptsOf(b)
  {
    if a != [] {
      SameReceipts(a[..|a| - 1], b[..|b| - 1]);
      assert Alike(a[|a| - 1], b[|b| - 1]);
      SameElements(ReceiptIds(Last(a).bandwidthProofs), ReceiptIds(Last(b).bandwidthProofs));
    }
  }

  lemma {:induction false} SameElements(x: seq<string>, y: seq<string>)
    requires multiset(x) == multiset(y)
    ensures Elements(x) == Elements(y)
  {
    forall id ensures id in Elements(x) <==> id in Elements(y) {
      assert id in multiset(x) <==> id in multiset(y);
    }
  }

  lemma {:induction false} SameDifficulty(a: seq<Block>, b: seq<Block>)
    requires a != [] && AlikeChains(a, b)
    ensures ComputeNextDifficulty(a) == ComputeNextDifficulty(b)
  {}

  /** Acceptance depends only on what the hashes cover. */
  lemma {:induction false} AcceptanceTransfers(ours: seq<Block>, theirs: seq<Block>, b: Block)
    requires ours != [] && AlikeChains(ours, theirs)
    requires Fits(theirs, ReceiptsOf(theirs), b)
    ensures Fits(ours, ReceiptsOf(ours), b)
  {
    SameReceipts(ours, theirs);
    SameDifficulty(ours, theirs);
    assert Alike(ours[|ours| - 1], theirs[|ours| - 1]);
  }

  ghost predicate ReceiptsExact(s: State)
  {
    s.chain != [] && s.spentReceipts == ReceiptsOf(s.chain)
  }

  /** Our ledger has seen exactly the first blocks of the peer, up to what hashes cover. */
  ghost predicate OnTrack(theirs: seq<Block>, s: State)
  {
    ReceiptsExact(s) && |s.chain| <= |theirs| && AlikeChains(s.chain, theirs[..|s.chain|])
  }

  /** The peer's next block is accepted on a ledger that is on its track. */
  lemma {:induction false} NextBlockAccepted(c: Crypto, s: State, theirs: seq<Block>)
    requires BuiltByAddBlock(c, theirs) && OnTrack(theirs, s) && |s.chain| < |theirs|
    ensures
      var r := AddTo(c, s, theirs[|s.chain|]);
      r.Some? && r.value.chain == s.chain + [theirs[|s.chain|]] && OnTrack(theirs, r.value)
  {
    var n := |s.chain|;
    var b := theirs[n];
    assert AcceptableAt(c, theirs, n);
    AcceptanceTransfers(s.chain, theirs[..n], b);
    ValidateBlockMeaning(c, s.chain, s.spentReceipts, b);
    assert (s.chain + [b])[..n] == s.chain;
    forall i | 0 <= i < n + 1 ensures Alike((s.chain + [b])[i], theirs[..n + 1][i]) {
      if i < n { assert Alike(s.chain[i], theirs[..n][i]); }
    }
  }

  ghost predicate FollowsFrom(add: Adder, theirs: seq<Block>, inv: State -> bool, s: State)
  {
    inv(s) && |s.chain| < |theirs| ==>
      var r := add(s, theirs[|s.chain|]);
      r.Some? && r.value.chain == s.chain + [theirs[|s.chain|]] && inv(r.value)
  }

  /** add takes the peer's next block from every ledger satisfying the invariant, and keeps it. */
  ghost predicate Follows(add: Adder, theirs: seq<Block>, inv: State -> bool)
  {
    forall s :: FollowsFrom(add, theirs, inv, s)
  }

  /** A run of consecutive blocks of the peer is taken whole. */
  lemma {:induction false} ServedBlocksApply(add: Adder, s: State, theirs: seq<Block>, blocks: seq<Option<Block>>,
                                             inv: State -> bool)
    requires Follows(add, theirs, inv) && inv(s)
    requires |s.chain| + |blocks| <= |theirs|
    requires forall i :: 0 <= i < |blocks| ==> blocks[i] == Some(theirs[|s.chain| + i])
    ensures
      var n := |s.chain|;
      var (s', ok) := ApplyBlocks(add, s, blocks);
      ok && s'.chain == s.chain + theirs[n..n + |blocks|] && inv(s')
    decreases |blocks|
  {
    if blocks != [] {
      var n := |s.chain|;
      assert blocks[0] == Some(theirs[n]);
      assert FollowsFrom(add, theirs, inv, s);
      ServedBlocksApply(add, add(s, theirs[n]).value, theirs, blocks[1..], inv);
      assert s.chain + [theirs[n]] + theirs[n + 1..n + |blocks|] == s.chain + theirs[n..n + |blocks|];
    }
  }

  lemma {:induction false} ServedWhole(theirs: seq<Block>, start: nat, end: nat)
    requires start <= end < |theirs| && end < start + BATCH_SIZE
    ensures |Served(theirs, start, end)| == end + 1 - start
    ensures forall i :: 0 <= i < end + 1 - start ==> Served(theirs, start, end)[i] == Some(theirs[start + i])
  {}

  ghost predicate ServesFrom(peer: Peer, theirs: seq<Block>)
  {
    forall start, end :: 0 <= start <= end ==> peer.blocks(start, end) == Served(theirs, start, end)
  }

  lemma {:induction false} BatchesApply(add: Adder, s: State, peer: Peer, theirs: seq<Block>, inv: State -> bool)
    requires Follows(add, theirs, inv) && inv(s) && ServesFrom(peer, theirs)
    requires |s.chain| <= peer.chainHeight + 1 <= |theirs|
    ensures SyncBatches(add, s, peer, |s.chain|).chain == s.chain + theirs[|s.chain|..peer.chainHeight + 1]
    decreases peer.chainHeight + 1 - |s.chain|
  {
    var start := |s.chain|;
    if start <= peer.chainHeight {
      var end := Min(start + BATCH_SIZE - 1, peer.chainHeight);
      var blocks := peer.blocks(start, end);
      ServedWhole(theirs, start, end);
      ServedBlocksApply(add, s, theirs, blocks, inv);
      var s' := ApplyBlocks(add, s, blocks).0;
      TwoSlices(s.chain, theirs, start, end + 1, peer.chainHeight + 1);
      assert |s'.chain| == end + 1 && SyncBatches(add, s, peer, start) == SyncBatches(add, s', peer, end + 1);
      BatchesApply(add, s', peer, theirs, inv);
    }
  }

  lemma {:induction false} TwoSlices(chain: seq<Block>, theirs: seq<Block>, start: nat, mid: nat, end: nat)
    requires start <= mid <= end <= |theirs|
    ensures chain + theirs[start..mid] + theirs[mid..end] == chain + theirs[start..end]
  {}

  /** Our tip is on the honest peer's chain: everything up to the reported height is appended. */
  lemma {:induction false} SyncAppends(c: Crypto, add: Adder, s: State, peer: Peer, theirs: seq<Block>)
    requires IsAdder(add, c) && ServesFrom(peer, theirs) && BuiltByAddBlock(c, theirs)
    requires OnTrack(theirs, s) && |s.chain| <= peer.chainHeight + 1 <= |theirs|
    ensures SyncBatches(add, s, peer, |s.chain|).chain == s.chain + theirs[|s.chain|..peer.chainHeight + 1]
  {
    var inv := (t: State) => OnTrack(theirs, t);
    forall t ensures FollowsFrom(add, theirs, inv, t) {
      if inv(t) && |t.chain| < |theirs| {
        assert Offers(add, c, t, theirs[|t.chain|]);
        NextBlockAccepted(c, t, theirs);
      }
    }
    BatchesApply(add, s, peer, theirs, inv);
  }

  /** Our tip is not on it: the first block fetched is rejected. */
  lemma {:induction false} SyncRejects(c: Crypto, add: Adder, s: State, peer: Peer, theirs: seq<Block>, fork: nat)
    requires IsAdder(add, c) && ServesFrom(peer, theirs) && BuiltByAddBlock(c, theirs)
    requires s.chain != [] && fork < |s.chain| && |s.chain| - 1 <= peer.chainHeight < |theirs|
    requires fork == |s.chain| - 1 ==> Last(s.chain).blockHash != theirs[fork].blockHash
    ensures SyncBatches(add, s, peer, fork + 1) == s
  {
    if fork + 1 <= peer.chainHeight {
      var end := Min(fork + 1 + BATCH_SIZE - 1, peer.chainHeight);
      var blocks := peer.blocks(fork + 1, end);
      ServedWhole(theirs, fork + 1, end);
      assert blocks[0] == Some(theirs[fork + 1]);
      assert AcceptableAt(c, theirs, fork + 1);
      assert Offers(add, c, s, theirs[fork + 1]);
    }
  }

  lemma {:induction false} TipDeterminesChain(c: Crypto, ours: seq<Block>, theirs: seq<Block>)
    requires CollisionFree(c, ours, theirs) && HashLinked(c, ours) && HashLinked(c, theirs) && |ours| <= |theirs|
    requires Last(ours).blockHash == theirs[|ours| - 1].blockHash
    ensures AlikeChains(ours, theirs[..|ours|])
  {
    forall i | 0 <= i < |ours| ensures Alike(ours[i], theirs[..|ours|][i]) {
      HashesEqualBelow(c, ours, theirs, i, |ours| - 1);
    }
  }

  /** The exact effect of a sync against an honest peer at least as tall as us: if our tip is on its
      chain we end with its chain up to the reported height; otherwise nothing changes, because no
      sync ever replaces a block. */
  lemma {:induction false} SyncOutcome(c: Crypto, add: Adder, s: State, peer: Peer, theirs: seq<Block>)
    requires IsAdder(add, c) && CollisionFree(c, s.chain, theirs) && HashLinked(c, s.chain) && ReceiptsExact(s)
    requires Honest(peer, theirs) && BuiltByAddBlock(c, theirs)
    requires |s.chain| - 1 <= peer.chainHeight
    ensures
      var h := |s.chain| - 1;
      var r := SyncFrom(add, s, peer);
      if s.chain[h].blockHash == theirs[h].blockHash
      then r.chain == s.chain + theirs[|s.chain|..peer.chainHeight + 1]
      else r == s
  {
    var h := |s.chain| - 1;
    var fork := FindFork(s.chain, peer, h);
    TipDecidesFork(s.chain, peer, theirs, h, fork);
    SyncFromFork(add, s, peer, fork);
    if s.chain[h].blockHash == theirs[h].blockHash {
      BuiltIsLinked(c, theirs);
      TipOnTrack(c, s, theirs);
      SyncAppends(c, add, s, peer, theirs);
    } else {
      SyncRejects(c, add, s, peer, theirs, fork);
    }
  }

  lemma {:induction false} SyncFromFork(add: Adder, s: State, peer: Peer, fork: int)
    requires s.chain != [] && fork == FindFork(s.chain, peer, |s.chain| - 1)
    ensures SyncFrom(add, s, peer) == SyncBatches(add, s, peer, fork + 1)
  {}

  lemma {:induction false} TipOnTrack(c: Crypto, s: State, theirs: seq<Block>)
    requires CollisionFree(c, s.chain, theirs) && HashLinked(c, s.chain) && HashLinked(c, theirs)
    requires |s.chain| <= |theirs|
    requires ReceiptsExact(s) && s.chain[|s.chain| - 1].blockHash == theirs[|s.chain| - 1].blockHash
    ensures OnTrack(theirs, s)
  {
    TipDeterminesChain(c, s.chain, theirs);
  }

  lemma {:induction false} TipDecidesFork(ours: seq<Block>, peer: Peer, theirs: seq<Block>, h: nat, fork: int)
    requires Honest(peer, theirs) && h == |ours| - 1 <= peer.chainHeight && fork == FindFork(ours, peer, h)
    ensures 0 <= fork <= h && (ours[h].blockHash == theirs[h].blockHash ==> fork == h)
  {
    HonestAgreement(ours, peer, theirs, h);
  }

  /** Catch-up: a chain that is a prefix of the peer's becomes the peer's, up to its reported height. A
      prefix needs nothing of the hash. */
  lemma {:induction false} CatchUp(c: Crypto, add: Adder, s: State, peer: Peer, theirs: seq<Block>)
    requires IsAdder(add, c) && ReceiptsExact(s) && Honest(peer, theirs) && BuiltByAddBlock(c, theirs)
    requires |s.chain| - 1 <= peer.chainHeight && s.chain <= theirs
    ensures SyncFrom(add, s, peer).chain == theirs[..peer.chainHeight + 1]
  {
    var h := |s.chain| - 1;
    var fork := FindFork(s.chain, peer, h);
    TipDecidesFork(s.chain, peer, theirs, h, fork);
    SyncFromFork(add, s, peer, fork);
    PrefixOnTrack(s, theirs);
    SyncAppends(c, add, s, peer, theirs);
    PrefixCompleted(s.chain, theirs, peer.chainHeight + 1);
  }

  lemma {:induction false} PrefixOnTrack(s: State, theirs: seq<Block>)
    requires ReceiptsExact(s) && s.chain <= theirs
    ensures OnTrack(theirs, s)
  {
    assert s.chain == theirs[..|s.chain|];
  }

  lemma {:induction false} PrefixCompleted(ours: seq<Block>, theirs: seq<Block>, end: nat)
    requires ours <= theirs && |ours| <= end <= |theirs|
    ensures ours + theirs[|ours|..end] == theirs[..end]
  {
    assert ours == theirs[..|ours|];
    assert theirs[..|ours|] + theirs[|ours|..end] == theirs[..end];
  }

  // ---------------------------------------------------------------- two nodes

  lemma {:induction false} NodeIsLinked(c: Crypto, events: seq<Event>, chain: seq<Block>)
    requires NoReplacement(events) && chain == Run(c, events).chain
    ensures HashLinked(c, chain) && chain[0] == Genesis(c)
  {
    RunBuildsByAddBlock(c, events);
    BuiltIsLinked(c, chain);
    RunExtendsPrefix(c, events, |events|);
  }

  /** Two nodes that started from the same genesis and grew by mining and accepted blocks: the fork search
      finds the last block they share. */
  lemma {:induction false} NodesFork(c: Crypto, events: seq<Event>, events': seq<Event>, ours: seq<Block>,
                                     theirs: seq<Block>, peer: Peer)
    requires NoReplacement(events) && NoReplacement(events')
    requires ours == Run(c, events).chain && theirs == Run(c, events').chain
    requires Honest(peer, theirs) && CollisionFree(c, ours, theirs)
    requires peer.chainHeight >= |ours| - 1 || peer.chainHeight == |theirs| - 1
    ensures
      var r := FindFork(ours, peer, |ours| - 1);
      Common(ours, theirs, r) && forall j :: j > r ==> !Common(ours, theirs, j)
  {
    NodeIsLinked(c, events, ours);
    NodeIsLinked(c, events', theirs);
    ForkIsHighestCommon(c, ours, peer, theirs);
  }

  /** If the second node answers honestly and is at least as tall, syncing with it appends its blocks up to
      the height it reports when the first one's tip is on its chain, and changes nothing otherwise. */
  lemma {:induction false} NodesSync(c: Crypto, events: seq<Event>, events': seq<Event>, peer: Peer)
    requires NoReplacement(events) && NoReplacement(events')
    requires
      var ours, theirs := Run(c, events).chain, Run(c, events').chain;
      Honest(peer, theirs) && CollisionFree(c, ours, theirs) && |ours| - 1 <= peer.chainHeight
    ensures
      var s, theirs := Run(c, events), Run(c, events').chain;
      var h, after := |s.chain| - 1, SyncFrom(NodeAdder(c), s, peer);
      if s.chain[h].blockHash == theirs[h].blockHash
      then after.chain == s.chain + theirs[h + 1..peer.chainHeight + 1]
      else after == s
  {
    var s := Run(c, events);
    RunConsistent(c, events);
    RunBuildsByAddBlock(c, events);
    BuiltIsLinked(c, s.chain);
    RunBuildsByAddBlock(c, events');
    NodeIsAdder(c);
    SyncOutcome(c, NodeAdder(c), s, peer, Run(c, events').chain);
  }

  /** A node whose chain is a prefix of the other's ends with the other's chain. */
  lemma {:induction false} NodesCatchUp(c: Crypto, events: seq<Event>, events': seq<Event>, peer: Peer)
    requires NoReplacement(events')
    requires
      var ours, theirs := Run(c, events).chain, Run(c, events').chain;
      Honest(peer, theirs) && ours <= theirs && |ours| - 1 <= peer.chainHeight
    ensures SyncFrom(NodeAdder(c), Run(c, events), peer).chain == Run(c, events').chain[..peer.chainHeight + 1]
  {
    RunConsistent(c, events);
    RunBuildsByAddBlock(c, events');
    NodeIsAdder(c);
    CatchUp(c, NodeAdder(c), Run(c, events), peer, Run(c, events').chain);
  }

  // ---------------------------------------------------------------- the sync loop

  method SameHash(node: BorderChain, peer: Peer, index: int) returns (same: bool)
    ensures same == Agrees(node.chain, peer, index)
  {
    var peerHash := peer.hashAt(index);
    var ourHash := node.BlockHashAt(index);
    same := peerHash.Some? && peerHash.value != "" && peerHash == ourHash;
  }

  method ComputeFork(node: BorderChain, peer: Peer, ourHeight: nat) returns (r: int)
    ensures r == FindFork(node.chain, peer, ourHeight)
  {
    var tipAgrees := SameHash(node, peer, ourHeight);
    if tipAgrees { return ourHeight; }
    r := Bisect(node, peer, Min(ourHeight, peer.chainHeight));
  }

  method Bisect(node: BorderChain, peer: Peer, top: int) returns (lo: int)
    ensures lo == Search(node.chain, peer, 0, top)
  {
    lo := 0;
    var hi := top;
    while lo < hi
      invariant 0 <= lo && Search(node.chain, peer, lo, hi) == Search(node.chain, peer, 0, top)
      decreases hi - lo
    {
      lo, hi := Halve(node, peer, lo, hi);
    }
  }

  /** One round: the half of the range that holds the fork. */
  method Halve(node: BorderChain, peer: Peer, lo: int, hi: int) returns (lo': int, hi': int)
    requires 0 <= lo < hi
    ensures lo <= lo' && hi' - lo' < hi - lo
    ensures Search(node.chain, peer, lo', hi') == Search(node.chain, peer, lo, hi)
  {
    var mid := (lo + hi + 1) / 2;
    SearchHalves(node.chain, peer, lo, hi, mid);
    var agrees := SameHash(node, peer, mid);
    return if agrees then mid else lo, if agrees then hi else mid - 1;
  }

  method RunSyncFrom(node: BorderChain, peer: Peer, ourHeight: nat, ghost add: Adder)
    requires node.Valid() && ourHeight == |node.chain| - 1 && IsAdder(add, node.crypto)
    modifies node
    ensures node.Valid()
    ensures node.Value() == SyncFrom(add, old(node.Value()), peer)
  {
    var forkHeight := ComputeFork(node, peer, ourHeight);
    if forkHeight < 0 { return; }
    SyncFromFork(add, node.Value(), peer, forkHeight);
    Download(node, peer, forkHeight + 1, add);
  }

  method Download(node: BorderChain, peer: Peer, first: int, ghost add: Adder)
    requires node.Valid() && IsAdder(add, node.crypto)
    modifies node
    ensures node.Valid()
    ensures node.Value() == SyncBatches(add, old(node.Value()), peer, first)
  {
    var start := first;
    while start <= peer.chainHeight
      invariant node.Valid()
      invariant SyncBatches(add, node.Value(), peer, start) == SyncBatches(add, old(node.Value()), peer, first)
      decreases peer.chainHeight - start + 1
    {
      var end := Min(start + BATCH_SIZE - 1, peer.chainHeight);
      var blocks := peer.blocks(start, end);
      if blocks == [] { break; }
      var ok := ApplyFetched(node, blocks, add);
      if !ok { break; }
      start := end + 1;
    }
  }

  method ApplyFetched(node: BorderChain, blocks: seq<Option<Block>>, ghost add: Adder) returns (ok: bool)
    requires node.Valid() && IsAdder(add, node.crypto)
    modifies node
    ensures node.Valid()
    ensures (node.Value(), ok) == ApplyBlocks(add, old(node.Value()), blocks)
  {
    for i := 0 to |blocks|
      invariant node.Valid()
      invariant ApplyBlocks(add, node.Value(), blocks[i..]) == ApplyBlocks(add, old(node.Value()), blocks)
    {
      assert blocks[i..][1..] == blocks[i + 1..];
      if blocks[i].None? { return false; }
      var accepted := OfferBlock(node, blocks[i].value, add);
      if !accepted { return false; }
    }
    return true;
  }

  /** add_block, in the terms of the sync. */
  method OfferBlock(node: BorderChain, b: Block, ghost add: Adder) returns (accepted: bool)
    requires node.Valid() && IsAdder(add, node.crypto)
    modifies node
    ensures node.Valid()
    ensures add(old(node.Value()), b) == if accepted then Some(node.Value()) else None
    ensures !accepted ==> node.Value() == old(node.Value())
  {
    assert Offers(add, node.crypto, node.Value(), b);
    var v := node.Add(b);
    accepted := v.Valid?;
  }

  /** _sync_pass: the first peer of the greatest reported height, if it is taller than us. */
  method RunSyncPass(node: BorderChain, peers: seq<Peer>, ghost add: Adder)
    requires node.Valid() && IsAdder(add, node.crypto)
    modifies node
    ensures node.Valid()
    ensures old(node.chain) <= node.chain
    ensures (forall i :: 0 <= i < |peers| ==> peers[i].chainHeight <= old(|node.chain|) - 1)
            ==> node.Value() == old(node.Value())
    ensures (exists i :: 0 <= i < |peers| && peers[i].chainHeight > old(|node.chain|) - 1)
            ==> exists best :: 0 <= best < |peers|
                  && (forall i :: 0 <= i < |peers| ==> peers[i].chainHeight <= peers[best].chainHeight)
                  && (forall i :: 0 <= i < best ==> peers[i].chainHeight < peers[best].chainHeight)
                  && node.Value() == SyncFrom(add, old(node.Value()), peers[best])
  {
    if peers == [] { return; }
    var best := 0;
    for i := 1 to |peers|
      invariant 0 <= best < i
      invariant forall k :: 0 <= k < i ==> peers[k].chainHeight <= peers[best].chainHeight
      invariant forall k :: 0 <= k < best ==> peers[k].chainHeight < peers[best].chainHeight
    {
      if peers[i].chainHeight > peers[best].chainHeight { best := i; }
    }
    var ourHeight := |node.chain| - 1;
    if peers[best].chainHeight <= ourHeight { return; }
    SyncKeepsPrefix(node.crypto, add, node.Value(), peers[best]);
    RunSyncFrom(node, peers[best], ourHeight, add);
  }
}
