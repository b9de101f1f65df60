/** What holds of the compute market after any run. */
module MarketRuns {
  import opened Wrappers
  import opened Sequences
  import opened Workers
  import opened Markets

  // ---------------------------------------------------------------- paid at most once

  ghost predicate DistinctJobs(jobs: seq<Job>)
  {
    forall k, l :: 0 <= k < l < |jobs| ==> jobs[k].id != jobs[l].id
  }

  /** A proof is genuine: of this job's input, and signed if it names a key. */
  predicate Genuine(checks: Checks, job: Job, proof: Proof)
  {
    && proof.inputHash == checks.inputHash(job.input)
    && (proof.publicKey == "" || (proof.signature != "" && checks.verify(proof)))
  }

  /** The job of a payment is on file with a genuine proof of the worker that was paid, and the amount is
      what the proof earns, at most twice the job's maximal price. */
  predicate Covered(checks: Checks, m: Market, p: Payment)
  {
    && p.jobId in m.proofs
    && var at := FirstIndex(m.jobs, JobId(p.jobId));
       at.Some? && CoveredBy(checks, m.jobs[at.value], m.proofs[p.jobId], p)
  }

  predicate CoveredBy(checks: Checks, job: Job, proof: Proof, p: Payment)
  {
    && proof.jobId == p.jobId && proof.worker == p.worker && Genuine(checks, job, proof)
    && p.amount == Earned(job, proof) && p.amount <= 2 * job.maxPrice
  }

  ghost predicate PaidOnce(checks: Checks, m: Market)
  {
    && DistinctJobs(m.jobs) && (forall k :: 0 <= k < |m.jobs| ==> m.jobs[k].maxPrice > 0)
    && (forall i :: 0 <= i < |m.payments| ==> Covered(checks, m, m.payments[i]))
    && (forall i, j :: 0 <= i < j < |m.payments| ==> m.payments[i].jobId != m.payments[j].jobId)
  }

  /** Retries get identifiers that are not in use. */
  predicate FreshRetry(m: Market, e: Event)
  {
    e.Fails? ==> FirstIndex(m.jobs, JobId(e.newId)).None?
  }

  /** The job has the same id, input and price. */
  predicate SameOrder(j: Job, j': Job)
  {
    j'.id == j.id && j'.input == j.input && j'.maxPrice == j.maxPrice
  }

  /** Jobs keep their place and what was ordered. */
  ghost predicate SameJobs(before: seq<Job>, after: seq<Job>)
  {
    |before| <= |after| && forall k :: 0 <= k < |before| ==> SameOrder(before[k], after[k])
  }

  ghost predicate KeepsProofs(m: Market, m': Market)
  {
    forall id :: id in m.proofs ==> id in m'.proofs && m'.proofs[id] == m.proofs[id]
  }

  lemma {:induction false} StillCovered(checks: Checks, m: Market, m': Market)
    requires SameJobs(m.jobs, m'.jobs) && KeepsProofs(m, m')
    requires forall i :: 0 <= i < |m.payments| ==> Covered(checks, m, m.payments[i])
    ensures forall i :: 0 <= i < |m.payments| ==> Covered(checks, m', m.payments[i])
  {}

  lemma {:induction false} SameIndex(jobs: seq<Job>, jobs': seq<Job>, id: string)
    requires SameJobs(jobs, jobs') && FirstIndex(jobs, JobId(id)).Some?
    ensures FirstIndex(jobs', JobId(id)) == FirstIndex(jobs, JobId(id))
  {}

  lemma {:induction false} TryAssignKeepsJobs(m: Market, k: nat, now: real)
    requires k < |m.jobs|
    ensures
      var m' := TryAssign(m, k, now);
      SameJobs(m.jobs, m'.jobs) && |m'.jobs| == |m.jobs| && m'.proofs == m.proofs && m'.payments == m.payments
  {}

  lemma {:induction false} RetryKeepsJobs(m: Market, k: nat, now: real)
    requires k <= |m.jobs|
    ensures
      var m' := RetryPending(m, k, now);
      SameJobs(m.jobs, m'.jobs) && |m'.jobs| == |m.jobs| && m'.proofs == m.proofs && m'.payments == m.payments
  {
    if k > 0 {
      RetryKeepsJobs(m, k - 1, now);
      TryAssignKeepsJobs(RetryPending(m, k - 1, now), k - 1, now);
    }
  }

  lemma {:induction false} OneMoreJob(jobs: seq<Job>, job: Job)
    requires DistinctJobs(jobs) && FirstIndex(jobs, JobId(job.id)).None?
    ensures DistinctJobs(jobs + [job])
  {}

  lemma {:induction false} SameJobsDistinct(jobs: seq<Job>, jobs': seq<Job>)
    requires DistinctJobs(jobs) && SameJobs(jobs, jobs') && |jobs| == |jobs'|
    ensures DistinctJobs(jobs')
  {}

  lemma {:induction false} SamePaidOnce(checks: Checks, m: Market, m': Market)
    requires PaidOnce(checks, m) && SameJobs(m.jobs, m'.jobs) && |m'.jobs| == |m.jobs|
    requires m'.payments == m.payments && KeepsProofs(m, m')
    ensures PaidOnce(checks, m')
  {
    StillCovered(checks, m, m');
    SameJobsDistinct(m.jobs, m'.jobs);
  }

  lemma {:induction false} QueueKeepsPaidOnce(checks: Checks, m: Market, m': Market, job: Job)
    requires PaidOnce(checks, m) && FirstIndex(m.jobs, JobId(job.id)).None? && job.maxPrice > 0
    requires |m'.jobs| == |m.jobs| + 1 && SameJobs(m.jobs, m'.jobs)
    requires m'.jobs[|m.jobs|].id == job.id && m'.jobs[|m.jobs|].maxPrice == job.maxPrice
    requires m'.payments == m.payments && m'.proofs == m.proofs
    ensures PaidOnce(checks, m')
  {
    StillCovered(checks, m, m');
    QueueKeepsDistinct(m.jobs, m'.jobs, job);
  }

  lemma {:induction false} QueueKeepsDistinct(jobs: seq<Job>, jobs': seq<Job>, job: Job)
    requires DistinctJobs(jobs) && FirstIndex(jobs, JobId(job.id)).None?
    requires |jobs'| == |jobs| + 1 && SameJobs(jobs, jobs') && jobs'[|jobs|].id == job.id
    ensures DistinctJobs(jobs')
  {
    OneMoreJob(jobs, jobs'[|jobs|]);
    SameJobsDistinct(jobs + [jobs'[|jobs|]], jobs');
  }

  lemma {:induction false} ProofKeepsPaidOnce(checks: Checks, m: Market, p: Proof)
    requires PaidOnce(checks, m)
    ensures PaidOnce(checks, SubmitProof(checks, m, p).0)
  {
    var at := FirstIndex(m.jobs, JobId(p.jobId));
    var m' := SubmitProof(checks, m, p).0;
    if SubmitProof(checks, m, p).1 {
      StillCovered(checks, m, m');
      SameJobsDistinct(m.jobs, m'.jobs);
      SameIndex(m.jobs, m'.jobs, p.jobId);
      assert m.jobs[at.value].maxPrice > 0;
      forall i | 0 <= i < |m.payments| ensures m.payments[i].jobId != p.jobId {
        assert Covered(checks, m, m.payments[i]);
      }
    }
  }

  lemma {:induction false} StepKeepsPaidOnce(checks: Checks, m: Market, e: Event)
    requires PaidOnce(checks, m) && FreshRetry(m, e)
    ensures PaidOnce(checks, Step(checks, m, e))
  {
    var m' := Step(checks, m, e);
    match e
    case Submits(job, now) =>
      if SubmitJob(m, job, now).1 {
        TryAssignKeepsJobs(m.(jobs := m.jobs + [job]), |m.jobs|, now);
        QueueKeepsPaidOnce(checks, m, m', job);
      }
    case Proves(proof) => ProofKeepsPaidOnce(checks, m, proof);
    case Fails(id, newId, now) => FailKeepsPaidOnce(checks, m, id, newId, now);
    case Retries(now) =>
      RetryKeepsJobs(m, |m.jobs|, now);
      SamePaidOnce(checks, m, m');
    case _ => SamePaidOnce(checks, m, m');
  }

  lemma {:induction false} FailKeepsPaidOnce(checks: Checks, m: Market, id: string, newId: string, now: real)
    requires PaidOnce(checks, m) && FirstIndex(m.jobs, JobId(newId)).None?
    ensures PaidOnce(checks, FailJob(m, id, newId, now).0)
  {
    var at := FirstIndex(m.jobs, JobId(id));
    if at.Some? {
      var queued := Requeued(m, at.value, newId, now);
      TryAssignKeepsJobs(queued, |m.jobs|, now);
      QueueKeepsPaidOnce(checks, m, FailJob(m, id, newId, now).0, queued.jobs[|m.jobs|]);
    }
  }

  ghost predicate FreshRun(checks: Checks, events: seq<Event>)
  {
    events == [] ||
    (FreshRun(checks, events[..|events| - 1])
     && FreshRetry(Run(checks, events[..|events| - 1]), events[|events| - 1]))
  }

  /** In every run, whatever is registered, proved or failed: no job is ever paid twice, and no payment
      exceeds twice the maximal price of its job. */
  lemma {:induction false} NoJobPaidTwice(checks: Checks, events: seq<Event>)
    requires FreshRun(checks, events)
    ensures PaidOnce(checks, Run(checks, events))
  {
    if events != [] {
      NoJobPaidTwice(checks, events[..|events| - 1]);
      StepKeepsPaidOnce(checks, Run(checks, events[..|events| - 1]), events[|events| - 1]);
    }
  }
}
