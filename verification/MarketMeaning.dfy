/** What each call on the market does to jobs, workers and payments. */
module MarketMeaning {
  import opened Wrappers
  import opened Sequences
  import opened Workers
  import opened Markets
  import opened MarketRuns

  // ---------------------------------------------------------------- assigning

  /** Some worker can take the job. */
  ghost predicate Staffable(ws: seq<Worker>, job: Job, now: real)
  {
    exists i :: 0 <= i < |ws| && ws[i].CanHandle(job.minVram, job.maxPrice, now)
  }

  /** Job k went to the best worker who can take it, the first of the best; nothing else changed. */
  ghost predicate WentToBest(m: Market, m': Market, k: nat, i: nat, now: real)
  {
    && k < |m.jobs| && i < |m.workers| && Best(m.workers, i, m.jobs[k].minVram, m.jobs[k].maxPrice, now)
    && m'.jobs == m.jobs[k := m.jobs[k].(status := Assigned, worker := Some(m.workers[i].wallet))]
    && m'.workers == m.workers[i := m.workers[i].(available := false)]
    && m'.proofs == m.proofs && m'.payments == m.payments
  }

  lemma {:induction false} AssignsToBest(m: Market, k: nat, now: real)
    requires k < |m.jobs|
    ensures
      var m' := TryAssign(m, k, now);
      if m.jobs[k].status == JobStatus.Pending && Staffable(m.workers, m.jobs[k], now)
      then exists i :: WentToBest(m, m', k, i, now)
      else m' == m
  {
    var job := m.jobs[k];
    var best := BestWorker(m.workers, job.minVram, job.maxPrice, now);
    BestWorkerIsBest(m.workers, job.minVram, job.maxPrice, now);
    if best.Some? && job.status == JobStatus.Pending { assert WentToBest(m, TryAssign(m, k, now), k, best.value, now); }
  }

  /** No worker can do more than before. */
  ghost predicate NobodyFreed(ws: seq<Worker>, ws': seq<Worker>)
  {
    |ws'| == |ws| && forall i :: 0 <= i < |ws| ==> ws'[i] == ws[i] || ws'[i] == ws[i].(available := false)
  }

  lemma {:induction false} StillNobody(ws: seq<Worker>, ws': seq<Worker>, job: Job, now: real)
    requires NobodyFreed(ws, ws') && !Staffable(ws, job, now)
    ensures !Staffable(ws', job, now)
  {
    forall i | 0 <= i < |ws'| ensures !ws'[i].CanHandle(job.minVram, job.maxPrice, now) {
      assert !ws[i].CanHandle(job.minVram, job.maxPrice, now);
    }
  }

  /** The job does not wait for a worker who is there. */
  ghost predicate NotWaiting(ws: seq<Worker>, job: Job, now: real)
  {
    job.status == JobStatus.Pending ==> !Staffable(ws, job, now)
  }

  lemma {:induction false} AssigningStep(m: Market, k: nat, now: real)
    requires k < |m.jobs|
    ensures
      var m' := TryAssign(m, k, now);
      && |m'.jobs| == |m.jobs| && NobodyFreed(m.workers, m'.workers) && NotWaiting(m'.workers, m'.jobs[k], now)
      && forall j :: 0 <= j < |m.jobs| && j != k ==> m'.jobs[j] == m.jobs[j]
  {
    AssignsToBest(m, k, now);
  }

  /** Of the first k jobs none waits any more, and nobody was freed. */
  ghost predicate Served(m: Market, m': Market, k: nat, now: real)
  {
    && k <= |m.jobs| == |m'.jobs| && NobodyFreed(m.workers, m'.workers)
    && forall j :: 0 <= j < k ==> NotWaiting(m'.workers, m'.jobs[j], now)
  }

  lemma {:induction false} RetriesServe(m: Market, k: nat, now: real)
    requires k <= |m.jobs|
    ensures Served(m, RetryPending(m, k, now), k, now)
  {
    var inv := (n: Market, j: nat) => Served(m, n, j, now);
    forall n: Market, j: nat | j < |m.jobs| && inv(n, j) ensures j < |n.jobs| && inv(TryAssign(n, j, now), j + 1) {
      OneMoreServed(m, n, TryAssign(n, j, now), j, now);
    }
    RetryReaches(inv, m, k, now);
  }

  /** Retrying, used only through what one assignment establishes. */
  lemma {:induction false} RetryReaches(inv: (Market, nat) -> bool, m: Market, k: nat, now: real)
    requires k <= |m.jobs| && inv(m, 0)
    requires forall n: Market, j: nat :: j < |m.jobs| && inv(n, j) ==> j < |n.jobs| && inv(TryAssign(n, j, now), j + 1)
    ensures inv(RetryPending(m, k, now), k)
  {
    if k > 0 { RetryReaches(inv, m, k - 1, now); }
  }

  lemma {:induction false} NobodyFreedTwice(a: seq<Worker>, b: seq<Worker>, c: seq<Worker>)
    requires NobodyFreed(a, b) && NobodyFreed(b, c)
    ensures NobodyFreed(a, c)
  {}

  lemma {:induction false} OneMoreServed(start: Market, m: Market, m': Market, k: nat, now: real)
    requires k < |m.jobs| && m' == TryAssign(m, k, now) && Served(start, m, k, now)
    ensures Served(start, m', k + 1, now)
  {
    AssigningStep(m, k, now);
    NobodyFreedTwice(start.workers, m.workers, m'.workers);
    forall j | 0 <= j < k ensures NotWaiting(m'.workers, m'.jobs[j], now) {
      if m.jobs[j].status == JobStatus.Pending { StillNobody(m.workers, m'.workers, m.jobs[j], now); }
    }
  }

  /** After retrying, in every run, no job waits for which there is a worker. */
  lemma {:induction false} NoneWaitsAfterRetry(checks: Checks, events: seq<Event>, now: real, k: nat)
    requires k < |Run(checks, events + [Retries(now)]).jobs|
    ensures
      var m := Run(checks, events + [Retries(now)]);
      NotWaiting(m.workers, m.jobs[k], now)
  {
    assert (events + [Retries(now)])[..|events|] == events;
    var m := Run(checks, events);
    RetriesServe(m, |m.jobs|, now);
  }

  /** A job is taken if and only if its id is new and its price positive; it is queued last and does not wait
      for a worker who is there. */
  lemma {:induction false} SubmitExactly(m: Market, job: Job, now: real)
    ensures
      var (m', ok) := SubmitJob(m, job, now);
      && (ok <==> job.maxPrice > 0 && forall j :: 0 <= j < |m.jobs| ==> m.jobs[j].id != job.id)
      && (!ok ==> m' == m)
      && (ok ==>
            && |m'.jobs| == |m.jobs| + 1 && m'.jobs[..|m.jobs|] == m.jobs && SameOrder(job, m'.jobs[|m.jobs|])
            && NotWaiting(m'.workers, m'.jobs[|m.jobs|], now)
            && m'.payments == m.payments && m'.proofs == m.proofs)
  {
    var queued := m.(jobs := m.jobs + [job]);
    if FirstIndex(m.jobs, JobId(job.id)).None? {
      forall j | 0 <= j < |m.jobs| ensures m.jobs[j].id != job.id { assert !JobId(job.id)(m.jobs[j]); }
    }
    AssigningStep(queued, |m.jobs|, now);
    AssignsToBest(queued, |m.jobs|, now);
  }

  // ---------------------------------------------------------------- proofs and payments

  /** The reward is the nearest satoshi to two coins an hour and a tenth of a coin a gigabyte, or to the
      agreed price where that is more. */
  lemma {:induction false} RewardMeans(p: Proof)
    ensures
      var rate := p.seconds / 3600.0 * 2.0 + p.bytes as real / 1073741824.0 * 0.1;
      var coins := if rate >= p.price then rate else p.price;
      p.Reward() as real - 0.5 <= coins * 100000000.0 <= p.Reward() as real + 0.5
  {}

  /** The proof is for job k, which is assigned to the worker that proves, on the job's input, signed where a
      key is given, and the first for this job. */
  ghost predicate Proves(checks: Checks, m: Market, k: nat, p: Proof)
  {
    && k < |m.jobs| && m.jobs[k].id == p.jobId && m.jobs[k].status == Assigned && m.jobs[k].worker == Some(p.worker)
    && p.jobId !in m.proofs && p.inputHash == checks.inputHash(m.jobs[k].input)
    && (p.publicKey != "" ==> p.signature != "" && checks.verify(p))
  }

  /** What the proof of job k earns: its reward, or the maximal price when it asks for more than twice that. */
  function Due(job: Job, p: Proof): int
  {
    if p.Reward() <= 2 * job.maxPrice then p.Reward() else job.maxPrice
  }

  /** The first worker with the wallet got one more completed job and the money, and is free again. */
  ghost predicate Credited(ws: seq<Worker>, ws': seq<Worker>, wallet: string, amount: int)
  {
    && |ws'| == |ws|
    && forall i :: 0 <= i < |ws| ==>
         if ws[i].wallet == wallet && wallet != "" && (forall j :: 0 <= j < i ==> ws[j].wallet != wallet)
         then ws'[i] == ws[i].(completed := ws[i].completed + 1, earned := ws[i].earned + amount, available := true)
         else ws'[i] == ws[i]
  }

  lemma {:induction false} CreditsFirst(ws: seq<Worker>, wallet: string, amount: int)
    ensures
      var i := WorkerOf(ws, Some(wallet));
      Credited(ws, if i.None? then ws else ws[i.value := AfterCompletion(ws[i.value], amount)], wallet, amount)
  {
    var i := WorkerOf(ws, Some(wallet));
    forall j | 0 <= j < |ws| ensures WalletIs(wallet)(ws[j]) == (ws[j].wallet == wallet) {}
    if i.None? && wallet != "" {
      forall j | 0 <= j < |ws| ensures ws[j].wallet != wallet { assert !WalletIs(wallet)(ws[j]); }
    }
  }

  /** The effect of a proof for job k. */
  ghost predicate CompletesAndPays(m: Market, m': Market, k: nat, p: Proof)
  {
    && k < |m.jobs| && m'.jobs == m.jobs[k := m.jobs[k].(status := Completed)]
    && m'.proofs == m.proofs[p.jobId := p]
    && Credited(m.workers, m'.workers, p.worker, Due(m.jobs[k], p))
    && m'.payments == m.payments + [Payment(p.jobId, p.worker, p.client, Due(m.jobs[k], p))]
  }

  /** A proof is accepted if and only if it proves some job; then that job is completed, its worker credited
      and one payment logged, of what is due. Other proofs change nothing. */
  lemma {:induction false} ProofExactly(checks: Checks, m: Market, p: Proof)
    requires DistinctJobs(m.jobs)
    ensures
      var (m', ok, amount) := SubmitProof(checks, m, p);
      && (ok <==> exists k :: Proves(checks, m, k, p))
      && (!ok ==> m' == m && amount == 0)
      && (forall k: nat :: Proves(checks, m, k, p) ==> CompletesAndPays(m, m', k, p) && amount == Due(m.jobs[k], p))
  {
    var (m', ok, amount) := SubmitProof(checks, m, p);
    if ok { AcceptedProves(checks, m, p); }
    forall k: nat | Proves(checks, m, k, p)
      ensures ok && CompletesAndPays(m, m', k, p) && amount == Due(m.jobs[k], p)
    {
      ProvingIsAccepted(checks, m, k, p);
    }
  }

  lemma {:induction false} AcceptedProves(checks: Checks, m: Market, p: Proof)
    requires SubmitProof(checks, m, p).1
    ensures exists k :: Proves(checks, m, k, p)
  {
    var at := FirstIndex(m.jobs, JobId(p.jobId));
    assert JobId(p.jobId)(m.jobs[at.value]);
    assert Proves(checks, m, at.value, p);
  }

  lemma {:induction false} ProvingIsAccepted(checks: Checks, m: Market, k: nat, p: Proof)
    requires DistinctJobs(m.jobs) && Proves(checks, m, k, p)
    ensures
      var (m', ok, amount) := SubmitProof(checks, m, p);
      ok && CompletesAndPays(m, m', k, p) && amount == Due(m.jobs[k], p)
  {
    assert JobId(p.jobId)(m.jobs[k]);
    var at := FirstIndex(m.jobs, JobId(p.jobId));
    assert JobId(p.jobId)(m.jobs[at.value]);
    DistinctIndex(m.jobs, k, at.value);
    CreditsFirst(m.workers, p.worker, Due(m.jobs[k], p));
  }

  lemma {:induction false} DistinctIndex(jobs: seq<Job>, k: nat, l: nat)
    requires DistinctJobs(jobs) && k < |jobs| && l < |jobs| && jobs[k].id == jobs[l].id
    ensures k == l
  {}

  /** The payment a proof calls for. */
  ghost function PaymentFor(checks: Checks, m: Market, p: Proof): seq<Payment>
  {
    if exists k: nat :: Proves(checks, m, k, p) then
      var k: nat :| Proves(checks, m, k, p);
      [Payment(p.jobId, p.worker, p.client, Due(m.jobs[k], p))]
    else []
  }

  /** What the proofs of a run call for, one after the other. */
  ghost function PaymentsOf(checks: Checks, events: seq<Event>): seq<Payment>
  {
    if events == [] then []
    else
      var before, e := events[..|events| - 1], events[|events| - 1];
      PaymentsOf(checks, before) + if e.Proves? then PaymentFor(checks, Run(checks, before), e.proof) else []
  }

  /** Over every run the payments are exactly those. */
  lemma {:induction false} PaidExactly(checks: Checks, events: seq<Event>)
    requires FreshRun(checks, events)
    ensures Run(checks, events).payments == PaymentsOf(checks, events)
  {
    if events != [] {
      var before, e := events[..|events| - 1], events[|events| - 1];
      PaidExactly(checks, before);
      NoJobPaidTwice(checks, before);
      if e.Proves? {
        ProofPays(checks, Run(checks, before), e.proof);
      } else {
        OthersPayNothing(checks, Run(checks, before), e);
      }
    }
  }

  lemma {:induction false} ProofPays(checks: Checks, m: Market, p: Proof)
    requires DistinctJobs(m.jobs)
    ensures SubmitProof(checks, m, p).0.payments == m.payments + PaymentFor(checks, m, p)
  {
    ProofExactly(checks, m, p);
    if exists k: nat :: Proves(checks, m, k, p) {
      var k: nat :| Proves(checks, m, k, p);
      forall l: nat | Proves(checks, m, l, p) ensures l == k { DistinctIndex(m.jobs, k, l); }
    }
  }

  lemma {:induction false} OthersPayNothing(checks: Checks, m: Market, e: Event)
    requires !e.Proves?
    ensures Step(checks, m, e).payments == m.payments
  {
    match e
    case Submits(job, now) => SubmitExactly(m, job, now);
    case Fails(id, newId, now) =>
    case Retries(now) => RetryKeepsJobs(m, |m.jobs|, now);
    case _ =>
  }

  // ---------------------------------------------------------------- failing, expiring, registering

  /** The first worker with the wallet has one more failure and is free again. */
  ghost predicate Blamed(ws: seq<Worker>, ws': seq<Worker>, wallet: Option<string>)
  {
    && |ws'| == |ws|
    && forall i :: 0 <= i < |ws| ==>
         if wallet == Some(ws[i].wallet) && ws[i].wallet != ""
            && (forall j :: 0 <= j < i ==> ws[j].wallet != ws[i].wallet)
         then ws'[i] == ws[i].(failed := ws[i].failed + 1, available := true)
         else ws'[i] == ws[i]
  }

  lemma {:induction false} BlamesFirst(ws: seq<Worker>, wallet: Option<string>)
    ensures
      var i := WorkerOf(ws, wallet);
      Blamed(ws, if i.None? then ws else ws[i.value := AfterFailure(ws[i.value])], wallet)
  {
    if wallet.Some? {
      var i := WorkerOf(ws, wallet);
      forall j | 0 <= j < |ws| ensures WalletIs(wallet.value)(ws[j]) == (ws[j].wallet == wallet.value) {}
      if i.None? && wallet.value != "" {
        forall j | 0 <= j < |ws| ensures ws[j].wallet != wallet.value { assert !WalletIs(wallet.value)(ws[j]); }
      }
    }
  }

  /** The market once job k has failed: its worker is blamed and a copy of the order waits at the end. */
  ghost predicate FailsOver(m: Market, q: Market, k: nat, newId: string, now: real)
  {
    && k < |m.jobs| && Blamed(m.workers, q.workers, m.jobs[k].worker)
    && |q.jobs| == |m.jobs| + 1 && q.jobs[..|m.jobs|] == m.jobs[k := m.jobs[k].(status := Failed)]
    && q.jobs[|m.jobs|] == Job(newId, m.jobs[k].client, m.jobs[k].input, m.jobs[k].maxPrice, m.jobs[k].minVram, now,
                               JobStatus.Pending, None)
    && q.proofs == m.proofs && q.payments == m.payments
  }

  /** Failing works on the first job with the id, if there is one; the copy goes straight to the best worker
      who is there. */
  lemma {:induction false} FailExactly(m: Market, id: string, newId: string, now: real)
    ensures
      var (m', ok) := FailJob(m, id, newId, now);
      && (ok <==> exists k :: 0 <= k < |m.jobs| && m.jobs[k].id == id)
      && (!ok ==> m' == m)
      && (ok ==> exists k: nat, q ::
            && k < |m.jobs| && m.jobs[k].id == id && FailsOver(m, q, k, newId, now)
            && m' == TryAssign(q, |m.jobs|, now))
  {
    var at := FirstIndex(m.jobs, JobId(id));
    if at.None? {
      forall k | 0 <= k < |m.jobs| ensures m.jobs[k].id != id { assert !JobId(id)(m.jobs[k]); }
    } else {
      BlamesFirst(m.workers, m.jobs[at.value].worker);
      assert JobId(id)(m.jobs[at.value]);
      assert FailsOver(m, Requeued(m, at.value, newId, now), at.value, newId, now);
    }
  }

  /** Expiring concerns exactly the jobs that have waited for more than five minutes. */
  lemma {:induction false} ExpireExactly(checks: Checks, m: Market, now: real, k: nat)
    requires k < |m.jobs|
    ensures
      var m', job := Step(checks, m, Expires(now)), m.jobs[k];
      && |m'.jobs| == |m.jobs| && m'.workers == m.workers && m'.payments == m.payments && m'.proofs == m.proofs
      && m'.jobs[k] == if job.status == JobStatus.Pending && now - job.submittedAt > 300.0
                       then job.(status := JobStatus.Expired) else job
  {}

  /** Registering puts a worker in the place of the first one with its id, or at the end, seen now; a
      heartbeat does the same for what is there and nothing for an unknown id. */
  lemma {:induction false} RegisterExactly(ws: seq<Worker>, w: Worker, now: real, id: string)
    ensures
      var ws' := Registered(ws, w, now);
      if exists i :: 0 <= i < |ws| && ws[i].id == w.id
      then |ws'| == |ws| && forall i :: 0 <= i < |ws| ==>
             ws'[i] == if FirstWithId(ws, i, w.id) then w.(lastSeen := now) else ws[i]
      else ws' == ws + [w.(lastSeen := now)]
    ensures
      var ws' := Heartbeat(ws, id, now);
      |ws'| == |ws| && forall i :: 0 <= i < |ws| ==>
        ws'[i] == if FirstWithId(ws, i, id) then ws[i].(lastSeen := now) else ws[i]
  {
    FindsFirst(ws, w.id);
    FindsFirst(ws, id);
  }

  predicate FirstWithId(ws: seq<Worker>, i: nat, id: string)
    requires i < |ws|
  {
    ws[i].id == id && forall j :: 0 <= j < i ==> ws[j].id != id
  }

  lemma {:induction false} FindsFirst(ws: seq<Worker>, id: string)
    ensures
      var at := FirstIndex(ws, WorkerId(id));
      && (at.None? ==> forall i :: 0 <= i < |ws| ==> ws[i].id != id)
      && (at.Some? ==> at.value < |ws| && forall i :: 0 <= i < |ws| ==> (FirstWithId(ws, i, id) <==> i == at.value))
  {
    forall i | 0 <= i < |ws| ensures WorkerId(id)(ws[i]) == (ws[i].id == id) {}
    var at := FirstIndex(ws, WorkerId(id));
    if at.None? {
      forall i | 0 <= i < |ws| ensures ws[i].id != id { assert !WorkerId(id)(ws[i]); }
    }
  }
}
