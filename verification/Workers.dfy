/** GPU workers and the choice among them (border/compute/worker.py). */
module Workers {
  import opened Numbers
  import opened Wrappers
  import opened Sequences
  import opened Economics

  const MIN_STAKE_TO_WORK: real := 1.0
  const ONLINE_WINDOW: real := 60.0

  function Largest(vrams: seq<int>): int
    requires vrams != []
  {
    if |vrams| == 1 then vrams[0] else Max(Largest(vrams[..|vrams| - 1]), vrams[|vrams| - 1])
  }

  /** Stake is in coins, earnings are in satoshi, vrams holds the gigabytes of every GPU. */
  datatype Worker = Worker(id: string, wallet: string, vrams: seq<int>, stake: real, lastSeen: real,
                           completed: nat, failed: nat, earned: int, available: bool)
  {
    /** Rounded to four places; a new worker starts in the middle. */
    function Reputation(): real
    {
      if completed + failed == 0 then 0.5
      else Round(completed as real / (completed + failed) as real * 10000.0) as real / 10000.0
    }

    function MaxVram(): int { if vrams == [] then 0 else Largest(vrams) }

    predicate IsTrusted() { stake >= MIN_STAKE_TO_WORK && Reputation() >= 0.3 }

    predicate IsOnline(now: real) { now - lastSeen < ONLINE_WINDOW }

    predicate CanHandle(minVram: int, maxPrice: int, now: real)
    {
      available && IsOnline(now) && IsTrusted() && MaxVram() >= minVram && maxPrice >= 0
    }

    function Headroom(minVram: int): real
    {
      (MaxVram() - minVram) as real / Max(MaxVram(), 1) as real
    }

    function Score(minVram: int, maxPrice: int, now: real): real
    {
      if !CanHandle(minVram, maxPrice, now) then -1.0
      else Reputation() * 0.5 + MinReal(stake / 100.0, 0.3) + Headroom(minVram) * 0.2
    }
  }

  function HeartbeatAt(w: Worker, now: real): Worker
  {
    w.(lastSeen := now)
  }

  function AfterCompletion(w: Worker, amount: int): Worker
  {
    w.(completed := w.completed + 1, earned := w.earned + amount, available := true)
  }

  function AfterFailure(w: Worker): Worker
  {
    w.(failed := w.failed + 1, available := true)
  }

  /** A non-negative score means that the worker can take the job. */
  lemma {:induction false} ScoreMeansEligible(w: Worker, minVram: int, maxPrice: int, now: real)
    ensures w.Score(minVram, maxPrice, now) >= 0.0 <==> w.CanHandle(minVram, maxPrice, now)
    ensures !w.CanHandle(minVram, maxPrice, now) ==> w.Score(minVram, maxPrice, now) == -1.0
  {}

  /** Reputation is the share of completed jobs to four places, one half for a newcomer. */
  lemma {:induction false} ReputationIsShare(w: Worker)
    ensures w.completed + w.failed == 0 ==> w.Reputation() == 0.5
    ensures w.completed + w.failed > 0 ==>
      var share := w.completed as real / (w.completed + w.failed) as real;
      w.Reputation() - 0.00005 <= share <= w.Reputation() + 0.00005
  {
    if w.completed + w.failed > 0 { FourPlaces(w.completed as real / (w.completed + w.failed) as real); }
  }

  lemma {:induction false} FourPlaces(x: real)
    ensures Round(x * 10000.0) as real / 10000.0 - 0.00005 <= x <= Round(x * 10000.0) as real / 10000.0 + 0.00005
  {
    var y := x * 10000.0;
    assert y - 0.5 <= Round(y) as real <= y + 0.5;
  }

  lemma {:induction false} LargestIsLargest(vrams: seq<int>)
    requires vrams != []
    ensures Largest(vrams) in vrams && forall v :: v in vrams ==> v <= Largest(vrams)
  {
    if |vrams| > 1 {
      LargestIsLargest(vrams[..|vrams| - 1]);
      assert vrams == vrams[..|vrams| - 1] + [vrams[|vrams| - 1]];
    }
  }

  /** What it takes to be chosen: free, seen within a minute, a coin of stake, at least three jobs of ten
      completed, and one GPU that is large enough. */
  lemma {:induction false} EligibleMeans(w: Worker, minVram: int, maxPrice: int, now: real)
    requires minVram > 0
    ensures w.CanHandle(minVram, maxPrice, now) <==>
      && w.available && now - w.lastSeen < 60.0 && w.stake >= 1.0 && w.Reputation() >= 0.3
      && (exists v :: v in w.vrams && v >= minVram) && maxPrice >= 0
  {
    if w.vrams != [] { LargestIsLargest(w.vrams); }
  }

  /** How much each merit counts between two eligible workers that agree in the others: half of the
      difference in reputation, a hundredth of the difference in stake up to thirty coins and none above,
      and a fifth of the difference in the share of memory that is left over. */
  lemma {:induction false} ScoreWeighs(v: Worker, w: Worker, minVram: int, maxPrice: int, now: real)
    requires v.CanHandle(minVram, maxPrice, now) && w.CanHandle(minVram, maxPrice, now) && minVram > 0
    ensures
      var difference := v.Score(minVram, maxPrice, now) - w.Score(minVram, maxPrice, now);
      && (v.stake == w.stake && v.vrams == w.vrams ==> difference == (v.Reputation() - w.Reputation()) * 0.5)
      && (v.Reputation() == w.Reputation() && v.vrams == w.vrams && v.stake <= 30.0 && w.stake <= 30.0 ==>
            difference == (v.stake - w.stake) / 100.0)
      && (v.Reputation() == w.Reputation() && v.vrams == w.vrams && v.stake >= 30.0 && w.stake >= 30.0 ==>
            difference == 0.0)
      && (v.Reputation() == w.Reputation() && v.stake == w.stake ==>
            difference == (Left(v, minVram) - Left(w, minVram)) / 5.0)
  {
    LeftOver(v.MaxVram(), minVram);
    LeftOver(w.MaxVram(), minVram);
  }

  /** The share of its largest memory that a job leaves to a worker. */
  function Left(w: Worker, minVram: int): real
  {
    if w.MaxVram() <= 0 then 0.0 else 1.0 - minVram as real / w.MaxVram() as real
  }

  lemma {:induction false} LeftOver(vram: int, minVram: int)
    requires vram >= minVram > 0
    ensures (vram - minVram) as real / Max(vram, 1) as real == 1.0 - minVram as real / vram as real
  {
    var v, m := vram as real, minVram as real;
    var q := m / v;
    assert (1.0 - q) * v == v - q * v && q * v == m;
    QuotientIs(v - m, v, 1.0 - q);
  }

  lemma {:induction false} QuotientIs(a: real, b: real, q: real)
    requires b > 0.0 && a == q * b
    ensures a / b == q
  {
    var r := a / b;
    assert r * b == a && (r - q) * b == r * b - q * b;
    if r > q { Positive(r - q, b); }
    if r < q { Positive(q - r, b); }
  }

  lemma {:induction false} Positive(a: real, b: real)
    requires a > 0.0 && b > 0.0
    ensures a * b > 0.0
  {}

  // ---------------------------------------------------------------- the choice

  datatype Candidate = Candidate(score: real, index: nat)

  function Downwards(c: Candidate): real
  {
    -c.score
  }

  function Scores(ws: seq<Worker>, minVram: int, maxPrice: int, now: real): (scores: seq<real>)
    ensures |scores| == |ws|
    ensures forall i :: 0 <= i < |ws| ==> scores[i] == ws[i].Score(minVram, maxPrice, now)
  {
    seq(|ws|, i requires 0 <= i < |ws| => ws[i].Score(minVram, maxPrice, now))
  }

  /** The non-negative scores, in order of registration. */
  function Candidates(scores: seq<real>): seq<Candidate>
  {
    if scores == [] then []
    else
      var n := |scores| - 1;
      Candidates(scores[..n]) + if scores[n] >= 0.0 then [Candidate(scores[n], n)] else []
  }

  function Index(c: Candidate): int
  {
    c.index
  }

  predicate IsCandidate(scores: seq<real>, c: Candidate)
  {
    c.index < |scores| && c.score == scores[c.index] >= 0.0
  }

  lemma {:induction false} CandidatesAreScores(scores: seq<real>)
    ensures RisesBy(Candidates(scores), Index)
    ensures forall c :: c in Candidates(scores) <==> IsCandidate(scores, c)
  {
    if scores != [] {
      var n := |scores| - 1;
      CandidatesAreScores(scores[..n]);
      forall c ensures c in Candidates(scores) <==> IsCandidate(scores, c) {
        assert c in Candidates(scores[..n]) <==> IsCandidate(scores[..n], c);
      }
      forall c | c in Candidates(scores[..n]) ensures c.index < n { assert IsCandidate(scores[..n], c); }
    }
  }

  /** The head of the sorted list has the highest score, and the lowest index of that score. */
  lemma {:induction false} HeadIsBest(cs: seq<Candidate>)
    requires cs != [] && RisesBy(cs, Index)
    ensures
      var best := StableSort(cs, Downwards)[0];
      && best in cs
      && forall c :: c in cs ==> c.score < best.score || (c.score == best.score && best.index <= c.index)
  {
    var sorted := StableSort(cs, Downwards);
    var best := sorted[0];
    StableSortCorrect(cs, Downwards);
    assert best in multiset(sorted) && best in multiset(cs);
    assert best in cs;
    forall c | c in cs ensures c.score < best.score || (c.score == best.score && best.index <= c.index) {
      assert c in multiset(sorted);
      var i :| 0 <= i < |sorted| && sorted[i] == c;
      assert i > 0 ==> Downwards(sorted[0]) <= Downwards(sorted[i]);
      if c.score == best.score { FirstOfScore(cs, sorted, c); }
    }
  }

  lemma {:induction false} FirstOfScore(cs: seq<Candidate>, sorted: seq<Candidate>, c: Candidate)
    requires RisesBy(cs, Index) && sorted != [] && c in cs && c.score == sorted[0].score
    requires WithKey(sorted, Downwards, Downwards(c)) == WithKey(cs, Downwards, Downwards(c))
    ensures sorted[0].index <= c.index
  {
    var k := Downwards(c);
    var same := WithKey(cs, Downwards, k);
    WithKeyMembers(cs, Downwards, k);
    WithKeyRises(cs, Downwards, k, Index);
    var i :| 0 <= i < |same| && same[i] == c;
    HeadOfKey(sorted, Downwards);
    assert i > 0 ==> Index(same[0]) < Index(same[i]);
  }

  /** WorkerRegistry.best_worker_for: the head of the list sorted by falling score. */
  function BestWorker(ws: seq<Worker>, minVram: int, maxPrice: int, now: real): (best: Option<nat>)
    ensures best.Some? ==> best.value < |ws|
  {
    var scores := Scores(ws, minVram, maxPrice, now);
    var cs := Candidates(scores);
    if cs == [] then None
    else
      CandidatesAreScores(scores);
      HeadIsBest(cs);
      assert IsCandidate(scores, StableSort(cs, Downwards)[0]);
      Some(StableSort(cs, Downwards)[0].index)
  }

  ghost predicate Best(ws: seq<Worker>, i: nat, minVram: int, maxPrice: int, now: real)
    requires i < |ws|
  {
    && ws[i].CanHandle(minVram, maxPrice, now)
    && forall j :: 0 <= j < |ws| && ws[j].CanHandle(minVram, maxPrice, now) ==>
         && ws[j].Score(minVram, maxPrice, now) <= ws[i].Score(minVram, maxPrice, now)
         && (j < i ==> ws[j].Score(minVram, maxPrice, now) < ws[i].Score(minVram, maxPrice, now))
  }

  /** A worker is chosen exactly when some worker can take the job. The chosen one can, nobody who can
      has a higher score, and everyone registered before it who can has a lower one. */
  lemma {:induction false} BestWorkerIsBest(ws: seq<Worker>, minVram: int, maxPrice: int, now: real)
    ensures
      var best := BestWorker(ws, minVram, maxPrice, now);
      && (best.Some? <==> exists j :: 0 <= j < |ws| && ws[j].CanHandle(minVram, maxPrice, now))
      && (best.Some? ==> best.value < |ws| && Best(ws, best.value, minVram, maxPrice, now))
  {
    var scores := Scores(ws, minVram, maxPrice, now);
    var cs := Candidates(scores);
    CandidatesAreScores(scores);
    forall j | 0 <= j < |ws| ensures scores[j] >= 0.0 <==> ws[j].CanHandle(minVram, maxPrice, now) {
      ScoreMeansEligible(ws[j], minVram, maxPrice, now);
    }
    if cs != [] {
      HeadIsBest(cs);
      var best := BestWorker(ws, minVram, maxPrice, now).value;
      assert IsCandidate(scores, StableSort(cs, Downwards)[0]);
      forall j | 0 <= j < |ws| && scores[j] >= 0.0
        ensures scores[j] <= scores[best] && (j < best ==> scores[j] < scores[best])
      {
        assert IsCandidate(scores, Candidate(scores[j], j));
      }
    } else {
      forall j | 0 <= j < |ws| ensures scores[j] < 0.0 { assert !IsCandidate(scores, Candidate(scores[j], j)); }
    }
  }
}
