/** Workers, registry and market as the mutable objects they are: a registry of worker objects, and a
    market that changes them. */
module MarketObjects {
  import opened Wrappers
  import opened Sequences
  import opened Workers
  import opened Markets

  class BorderWorker {
    const id: string
    const wallet: string
    const vrams: seq<int>
    const stake: real
    var lastSeen: real
    var completed: nat
    var failed: nat
    var earned: int
    var available: bool

    constructor (id: string, wallet: string, vrams: seq<int>, stake: real, now: real)
      ensures Value() == Worker(id, wallet, vrams, stake, now, 0, 0, 0, true)
    {
      this.id, this.wallet, this.vrams, this.stake := id, wallet, vrams, stake;
      lastSeen, completed, failed, earned, available := now, 0, 0, 0, true;
    }

    function Value(): Worker
      reads this
    {
      Worker(id, wallet, vrams, stake, lastSeen, completed, failed, earned, available)
    }

    method Beat(now: real)
      modifies this`lastSeen
      ensures Value() == HeartbeatAt(old(Value()), now)
    {
      lastSeen := now;
    }

    method RecordCompletion(amount: int)
      modifies this
      ensures Value() == AfterCompletion(old(Value()), amount)
    {
      completed, earned, available := completed + 1, earned + amount, true;
    }

    method RecordFailure()
      modifies this
      ensures Value() == AfterFailure(old(Value()))
    {
      failed, available := failed + 1, true;
    }
  }

  ghost function Values(ws: seq<BorderWorker>): (values: seq<Worker>)
    reads ws
    ensures |values| == |ws|
    ensures forall i :: 0 <= i < |ws| ==> values[i] == ws[i].Value()
  {
    seq(|ws|, i requires 0 <= i < |ws| reads ws => ws[i].Value())
  }

  /** In order of registration. */
  class WorkerRegistry {
    var workers: seq<BorderWorker>

    constructor ()
      ensures Valid() && workers == []
    {
      workers := [];
    }

    /** No two workers share an id; in particular no worker is listed twice. */
    ghost predicate Valid()
      reads this
    {
      forall i, j :: 0 <= i < j < |workers| ==> workers[i].id != workers[j].id
    }

    method IndexOfId(id: string) returns (at: Option<nat>)
      ensures at == FirstIndex(Values(workers), WorkerId(id))
    {
      for i := 0 to |workers|
        invariant forall j :: 0 <= j < i ==> !WorkerId(id)(Values(workers)[j])
      {
        if workers[i].id == id {
          assert WorkerId(id)(Values(workers)[i]);
          return Some(i);
        }
      }
      return None;
    }

    /** The first worker with the wallet; none for the empty wallet. */
    method IndexOfWallet(wallet: Option<string>) returns (at: Option<nat>)
      ensures at == WorkerOf(Values(workers), wallet)
    {
      if wallet.None? || wallet.value == "" { return None; }
      for i := 0 to |workers|
        invariant forall j :: 0 <= j < i ==> !WalletIs(wallet.value)(Values(workers)[j])
      {
        if workers[i].wallet == wallet.value {
          assert WalletIs(wallet.value)(Values(workers)[i]);
          return Some(i);
        }
      }
      return None;
    }

    method Register(worker: BorderWorker, now: real) returns (isNew: bool)
      requires Valid()
      modifies this, worker
      ensures Valid()
      ensures Values(workers) == Registered(old(Values(workers)), old(worker.Value()), now)
      ensures isNew == FirstIndex(old(Values(workers)), WorkerId(worker.id)).None?
    {
      var at := IndexOfId(worker.id);
      ghost var before := Values(workers);
      forall i | 0 <= i < |workers| ensures WorkerId(worker.id)(before[i]) <==> workers[i].id == worker.id {}
      worker.Beat(now);
      if at.None? {
        workers := workers + [worker];
      } else {
        workers := workers[at.value := worker];
      }
      return at.None?;
    }

    method HeartbeatOf(id: string, now: real) returns (known: bool)
      requires Valid()
      modifies workers
      ensures Values(workers) == Heartbeat(old(Values(workers)), id, now)
      ensures known == FirstIndex(old(Values(workers)), WorkerId(id)).Some?
    {
      var at := IndexOfId(id);
      if at.None? { return false; }
      workers[at.value].Beat(now);
      return true;
    }

    method BestWorkerFor(minVram: int, maxPrice: int, now: real) returns (best: Option<nat>)
      ensures best == BestWorker(Values(workers), minVram, maxPrice, now)
    {
      ghost var scores := Scores(Values(workers), minVram, maxPrice, now);
      var candidates: seq<Candidate> := [];
      for i := 0 to |workers|
        invariant candidates == Candidates(scores[..i])
      {
        var score := workers[i].Value().Score(minVram, maxPrice, now);
        assert scores[..i + 1][..i] == scores[..i];
        if score >= 0.0 { candidates := candidates + [Candidate(score, i)]; }
      }
      assert scores[..|workers|] == scores;
      if candidates == [] { return None; }
      var sorted := StableSort(candidates, Downwards);
      return Some(sorted[0].index);
    }
  }

  function IsPending(): Job -> int
  {
    (job: Job) => if job.status == JobStatus.Pending then 1 else 0
  }

  function ExpiredNow(now: real): Job -> int
  {
    (job: Job) => if job.IsExpired(now) then 1 else 0
  }

  function PendingCount(jobs: seq<Job>): int
  {
    SumOf(jobs, IsPending())
  }

  lemma {:induction false} PendingUpdate(jobs: seq<Job>, k: nat, job: Job)
    requires k < |jobs|
    ensures PendingCount(jobs[k := job]) == PendingCount(jobs) - IsPending()(jobs[k]) + IsPending()(job)
  {
    SumOfWithout(jobs, k, IsPending());
    SumOfWithout(jobs[k := job], k, IsPending());
    assert jobs[k := job][..k] + jobs[k := job][k + 1..] == jobs[..k] + jobs[k + 1..];
  }

  class ComputeMarket {
    const registry: WorkerRegistry
    const checks: Checks
    var jobs: seq<Job>
    var proofs: map<string, Proof>
    var payments: seq<Payment>

    constructor (checks: Checks)
      ensures this.checks == checks && fresh(registry) && registry.Valid() && Value() == NEW_MARKET
    {
      registry := new WorkerRegistry();
      this.checks := checks;
      jobs, proofs, payments := [], map[], [];
    }

    ghost function Value(): Market
      reads this, registry, registry.workers
    {
      Market(Values(registry.workers), jobs, proofs, payments)
    }

    method IndexOfJob(id: string) returns (at: Option<nat>)
      ensures at == FirstIndex(jobs, JobId(id))
    {
      for i := 0 to |jobs|
        invariant forall j :: 0 <= j < i ==> !JobId(id)(jobs[j])
      {
        if jobs[i].id == id {
          assert JobId(id)(jobs[i]);
          return Some(i);
        }
      }
      return None;
    }

    method TryToAssign(k: nat, now: real) returns (given: bool)
      requires registry.Valid() && k < |jobs|
      modifies this, registry.workers
      ensures Value() == TryAssign(old(Value()), k, now)
      ensures given == (old(Value()) != Value())
      ensures PendingCount(old(jobs)) == PendingCount(jobs) + if given then 1 else 0
    {
      if jobs[k].status != JobStatus.Pending { return false; }
      var best := registry.BestWorkerFor(jobs[k].minVram, jobs[k].maxPrice, now);
      if best.None? { return false; }
      var worker := registry.workers[best.value];
      PendingUpdate(jobs, k, jobs[k].(worker := Some(worker.wallet), status := Assigned));
      jobs := jobs[k := jobs[k].(worker := Some(worker.wallet), status := Assigned)];
      worker.available := false;
      return true;
    }

    method SubmitAJob(job: Job, now: real) returns (accepted: bool)
      requires registry.Valid()
      modifies this, registry.workers
      ensures (Value(), accepted) == SubmitJob(old(Value()), job, now)
    {
      var at := IndexOfJob(job.id);
      if at.Some? || job.maxPrice <= 0 { return false; }
      jobs := jobs + [job];
      var given := TryToAssign(|jobs| - 1, now);
      return true;
    }

    method Accepts(job: Job, proof: Proof) returns (ok: bool)
      ensures ok == Acceptable(checks, Value(), job, proof)
    {
      if job.status != Assigned { return false; }
      if job.worker != Some(proof.worker) { return false; }
      if proof.jobId in proofs { return false; }
      if proof.publicKey != "" && !(proof.signature != "" && checks.verify(proof)) { return false; }
      return proof.inputHash == checks.inputHash(job.input);
    }

    method SubmitAProof(proof: Proof) returns (accepted: bool, amount: int)
      requires registry.Valid()
      modifies this, registry.workers
      ensures (Value(), accepted, amount) == SubmitProof(checks, old(Value()), proof)
    {
      var at := IndexOfJob(proof.jobId);
      if at.None? { return false, 0; }
      var job := jobs[at.value];
      var ok := Accepts(job, proof);
      if !ok { return false, 0; }
      amount := proof.Reward();
      if amount > job.maxPrice * 2 { amount := job.maxPrice; }
      jobs := jobs[at.value := job.(status := Completed)];
      proofs := proofs[proof.jobId := proof];
      CreditWorker(proof.worker, amount);
      payments := payments + [Payment(proof.jobId, proof.worker, proof.client, amount)];
      return true, amount;
    }

    method CreditWorker(wallet: string, amount: int)
      requires registry.Valid()
      modifies registry.workers
      ensures Values(registry.workers) ==
        var i := WorkerOf(old(Values(registry.workers)), Some(wallet));
        if i.None? then old(Values(registry.workers))
        else old(Values(registry.workers))[i.value := AfterCompletion(old(Values(registry.workers))[i.value], amount)]
    {
      var worker := registry.IndexOfWallet(Some(wallet));
      if worker.Some? { registry.workers[worker.value].RecordCompletion(amount); }
    }

    method BlameWorker(wallet: Option<string>)
      requires registry.Valid()
      modifies registry.workers
      ensures Values(registry.workers) ==
        var i := WorkerOf(old(Values(registry.workers)), wallet);
        if i.None? then old(Values(registry.workers))
        else old(Values(registry.workers))[i.value := AfterFailure(old(Values(registry.workers))[i.value])]
    {
      var worker := registry.IndexOfWallet(wallet);
      if worker.Some? { registry.workers[worker.value].RecordFailure(); }
    }

    method FailAJob(id: string, newId: string, now: real) returns (known: bool)
      requires registry.Valid()
      modifies this, registry.workers
      ensures (Value(), known) == FailJob(old(Value()), id, newId, now)
    {
      var at := IndexOfJob(id);
      if at.None? { return false; }
      Requeue(at.value, newId, now);
      var given := TryToAssign(|jobs| - 1, now);
      return true;
    }

    method Requeue(k: nat, newId: string, now: real)
      requires registry.Valid() && k < |jobs|
      modifies this, registry.workers
      ensures Value() == Requeued(old(Value()), k, newId, now)
    {
      var job := jobs[k];
      jobs := jobs[k := job.(status := Failed)];
      BlameWorker(job.worker);
      jobs := jobs + [job.(id := newId, submittedAt := now, status := JobStatus.Pending, worker := None)];
    }

    method ExpireStaleJobs(now: real) returns (expired: nat)
      modifies this`jobs
      ensures jobs == Expire(old(jobs), now)
      ensures expired == SumOf(old(jobs), ExpiredNow(now))
    {
      expired := 0;
      assert old(jobs)[..|jobs|] == old(jobs);
      for k := 0 to |jobs|
        invariant |jobs| == |old(jobs)|
        invariant expired == SumOf(old(jobs)[..k], ExpiredNow(now))
        invariant forall l :: 0 <= l < k ==> jobs[l] == Expire(old(jobs), now)[l]
        invariant forall l :: k <= l < |jobs| ==> jobs[l] == old(jobs)[l]
      {
        assert old(jobs)[..k + 1][..k] == old(jobs)[..k];
        if jobs[k].IsExpired(now) {
          jobs := jobs[k := jobs[k].(status := JobStatus.Expired)];
          expired := expired + 1;
        }
      }
    }

    method RetryPendingJobs(now: real) returns (given: nat)
      requires registry.Valid()
      modifies this, registry.workers
      ensures Value() == RetryPending(old(Value()), |old(jobs)|, now)
      ensures given == PendingCount(old(jobs)) - PendingCount(jobs)
    {
      given := 0;
      var count := |jobs|;
      ghost var start := Value();
      for k := 0 to count
        invariant count == |jobs| == |start.jobs| && given == PendingCount(start.jobs) - PendingCount(jobs)
        invariant Value() == RetryPending(start, k, now)
      {
        ghost var before := Value();
        var ok := TryToAssign(k, now);
        RetryOneMore(start, k, now, before, Value());
        if ok { given := given + 1; }
      }
    }
  }

  lemma {:induction false} RetryOneMore(start: Market, k: nat, now: real, before: Market, after: Market)
    requires k < |start.jobs| && before == RetryPending(start, k, now) && after == TryAssign(before, k, now)
    ensures after == RetryPending(start, k + 1, now)
  {}
}
