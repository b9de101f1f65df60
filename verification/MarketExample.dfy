/** A run that ends with one worker on two assigned jobs, because a completed job was failed. */
module MarketExample {
  import opened Wrappers
  import opened Sequences
  import opened Economics
  import opened Workers
  import opened Markets
  import opened MarketAssignments

  const WORKER: Worker := Worker("w", "wallet", [8], 1.0, 0.0, 0, 0, 0, true)
  const JOB_A: Job := Job("A", "client", "x", 10, 4, 0.0, JobStatus.Pending, None)
  const JOB_B: Job := JOB_A.(id := "B", input := "y")

  /** An unsigned proof of job A at an agreed price of five satoshi. */
  function ProofA(checks: Checks): Proof
  {
    Proof("p", "A", "wallet", "client", 0.0, 0, checks.inputHash("x"), "", "", 0.00000005)
  }

  /** One worker registers, takes and completes job A, and takes job B. */
  function BeforeFailure(checks: Checks): seq<Event>
  {
    [Registers(WORKER, 0.0)] + [Submits(JOB_A, 0.0)] + [Proves(ProofA(checks))] + [Submits(JOB_B, 0.0)]
  }

  function Held(job: Job): Job
  {
    job.(status := Assigned, worker := Some("wallet"))
  }

  function AfterProof(checks: Checks): Market
  {
    Market([AfterCompletion(WORKER, 5)], [Held(JOB_A).(status := Completed)], map["A" := ProofA(checks)],
           [Payment("A", "wallet", "client", 5)])
  }

  function BeforeFailureMarket(checks: Checks): Market
  {
    var m := AfterProof(checks);
    m.(workers := [m.workers[0].(available := false)], jobs := m.jobs + [Held(JOB_B)])
  }

  // ---------------------------------------------------------------- one worker

  /** A pending job goes to the only worker, if that one can take it. */
  lemma {:induction false} OnlyWorkerTakes(m: Market, k: nat, now: real)
    requires |m.workers| == 1 && k < |m.jobs| && m.jobs[k].status == JobStatus.Pending
    requires m.workers[0].CanHandle(m.jobs[k].minVram, m.jobs[k].maxPrice, now)
    ensures
      var w := m.workers[0];
      TryAssign(m, k, now) == m.(jobs := m.jobs[k := m.jobs[k].(status := Assigned, worker := Some(w.wallet))],
                                 workers := [w.(available := false)])
  {
    BestWorkerIsBest(m.workers, m.jobs[k].minVram, m.jobs[k].maxPrice, now);
  }

  /** The worker is trusted and able whenever it is free and online: its reputation is one half at the
      start and after one success and one failure, and one after a success. */
  lemma {:induction false} WorkerCanHandle(w: Worker, now: real)
    requires w == WORKER || w == AfterCompletion(WORKER, 5) || w == AfterFailure(AfterCompletion(WORKER, 5))
    requires now < 60.0
    ensures w.CanHandle(4, 10, now)
  {
    assert w.completed + w.failed > 0 ==>
      w.completed as real / (w.completed + w.failed) as real * 10000.0
        == (if w.failed == 0 then 10000 else 5000) as real;
    RoundExact(10000);
    RoundExact(5000);
  }

  lemma {:induction false} SubmitTaken(m: Market, job: Job)
    requires |m.workers| == 1 && m.workers[0].CanHandle(4, 10, 0.0) && FirstIndex(m.jobs, JobId(job.id)).None?
    requires job.minVram == 4 && job.maxPrice == 10 && job.status == JobStatus.Pending
    ensures
      var w := m.workers[0];
      SubmitJob(m, job, 0.0).0 == m.(jobs := m.jobs + [job.(status := Assigned, worker := Some(w.wallet))],
                                     workers := [w.(available := false)])
  {
    var queued := m.(jobs := m.jobs + [job]);
    OnlyWorkerTakes(queued, |m.jobs|, 0.0);
  }

  // ---------------------------------------------------------------- the run

  lemma {:induction false} OneMore(checks: Checks, events: seq<Event>, e: Event)
    requires FairRun(checks, events) && Fair(Run(checks, events), e)
    ensures Run(checks, events + [e]) == Step(checks, Run(checks, events), e) && FairRun(checks, events + [e])
  {
    assert (events + [e])[..|events|] == events;
  }

  lemma {:induction false} ProofAccepted(checks: Checks, m: Market)
    requires m == Market([WORKER.(available := false)], [Held(JOB_A)], map[], [])
    ensures SubmitProof(checks, m, ProofA(checks)).0 == AfterProof(checks)
  {
    assert JobId("A")(m.jobs[0]) && WalletIs("wallet")(m.workers[0]);
    RoundExact(5);
    assert ProofA(checks).Reward() == 5;
  }

  lemma {:induction false} ReachesAfterProof(checks: Checks)
    ensures
      var events := [Registers(WORKER, 0.0)] + [Submits(JOB_A, 0.0)] + [Proves(ProofA(checks))];
      FairRun(checks, events) && Run(checks, events) == AfterProof(checks)
  {
    var register, submit := [Registers(WORKER, 0.0)], [Submits(JOB_A, 0.0)];
    OneMore(checks, [], Registers(WORKER, 0.0));
    assert [] + register == register;
    var m := Run(checks, register);
    assert m == Market([WORKER], [], map[], []);
    WorkerCanHandle(WORKER, 0.0);
    SubmitTaken(m, JOB_A);
    OneMore(checks, register, Submits(JOB_A, 0.0));
    ProofAccepted(checks, Run(checks, register + submit));
    OneMore(checks, register + submit, Proves(ProofA(checks)));
  }

  lemma {:induction false} ReachesBeforeFailure(checks: Checks)
    ensures FairRun(checks, BeforeFailure(checks)) && Run(checks, BeforeFailure(checks)) == BeforeFailureMarket(checks)
  {
    var m := AfterProof(checks);
    ReachesAfterProof(checks);
    WorkerCanHandle(m.workers[0], 0.0);
    SubmitTaken(m, JOB_B);
    OneMore(checks, [Registers(WORKER, 0.0)] + [Submits(JOB_A, 0.0)] + [Proves(ProofA(checks))], Submits(JOB_B, 0.0));
  }

  /** For any hash and any signature check: after that fair run everything is sound, and failing the
      completed job A gives its worker the retry of A beside job B. */
  lemma {:induction false} FailingCompletedJob(checks: Checks)
    ensures FairRun(checks, BeforeFailure(checks)) && Sound(Run(checks, BeforeFailure(checks)))
    ensures
      var after := Run(checks, BeforeFailure(checks) + [Fails("A", "C", 1.0)]);
      |after.jobs| == 3 && HeldBy(after.jobs[1], "wallet") && HeldBy(after.jobs[2], "wallet")
  {
    var events := BeforeFailure(checks);
    ReachesBeforeFailure(checks);
    MarketIsSound(checks, events);
    FailsNext(checks, events, BeforeFailureMarket(checks));
    FailingGivesSecondJob(BeforeFailureMarket(checks));
  }

  lemma {:induction false} FailsNext(checks: Checks, events: seq<Event>, m: Market)
    requires Run(checks, events) == m
    ensures Run(checks, events + [Fails("A", "C", 1.0)]) == FailJob(m, "A", "C", 1.0).0
  {
    assert (events + [Fails("A", "C", 1.0)])[..|events|] == events;
  }

  lemma {:induction false} FailingGivesSecondJob(m: Market)
    requires m.jobs == [Held(JOB_A).(status := Completed), Held(JOB_B)]
    requires m.workers == [AfterCompletion(WORKER, 5).(available := false)]
    ensures
      var after := FailJob(m, "A", "C", 1.0).0;
      |after.jobs| == 3 && HeldBy(after.jobs[1], "wallet") && HeldBy(after.jobs[2], "wallet")
  {
    assert WalletIs("wallet")(m.workers[0]) && JobId("A")(m.jobs[0]);
    var queued := Requeued(m, 0, "C", 1.0);
    WorkerCanHandle(queued.workers[0], 1.0);
    OnlyWorkerTakes(queued, 2, 1.0);
  }
}
