/** Who works on what, and what everybody earned: runs in which workers register once, under wallets of
    their own, and no job is failed whose worker has moved on to another one. */
module MarketAssignments {
  import opened Wrappers
  import opened Sequences
  import opened Workers
  import opened Markets
  import opened MarketRuns

  // ---------------------------------------------------------------- fair runs

  /** A worker as its constructor makes it, under an id and a wallet of its own. */
  predicate NewWorker(ws: seq<Worker>, w: Worker)
  {
    && w.wallet != "" && w.available && w.completed == w.failed == 0 && w.earned == 0
    && FirstIndex(ws, WorkerId(w.id)).None? && FirstIndex(ws, WalletIs(w.wallet)).None?
  }

  predicate IsOpen(job: Job)
  {
    job.status in {JobStatus.Pending, Assigned, JobStatus.Expired}
  }

  /** The wallet belongs to a worker that is busy. */
  predicate Busy(ws: seq<Worker>, wallet: string)
  {
    var i := FirstIndex(ws, WalletIs(wallet));
    i.Some? && !ws[i.value].available
  }

  /** A job may be failed while nobody has finished or failed it, or once its worker is free. */
  predicate MayFail(m: Market, job: Job)
  {
    IsOpen(job) || job.worker.None? || !Busy(m.workers, job.worker.value)
  }

  predicate Fair(m: Market, e: Event)
  {
    match e
    case Registers(w, _) => NewWorker(m.workers, w)
    case Submits(job, _) => job.status == JobStatus.Pending && job.worker == None
    case Fails(id, newId, _) =>
      var at := FirstIndex(m.jobs, JobId(id));
      (at.Some? ==> MayFail(m, m.jobs[at.value])) && FirstIndex(m.jobs, JobId(newId)).None?
    case _ => true
  }

  ghost predicate FairRun(checks: Checks, events: seq<Event>)
  {
    events == [] ||
    (FairRun(checks, events[..|events| - 1]) && Fair(Run(checks, events[..|events| - 1]), events[|events| - 1]))
  }

  // ---------------------------------------------------------------- invariant

  ghost predicate OwnWallets(ws: seq<Worker>)
  {
    && (forall i :: 0 <= i < |ws| ==> ws[i].wallet != "")
    && (forall i, j :: 0 <= i < j < |ws| ==> ws[i].wallet != ws[j].wallet)
  }

  /** An assigned job has a busy worker, a job still waiting has none. */
  predicate Staffed(ws: seq<Worker>, job: Job)
  {
    match job.status
    case Assigned => job.worker.Some? && Busy(ws, job.worker.value)
    case Pending => job.worker == None
    case Expired => job.worker == None
    case _ => true
  }

  ghost predicate OneJobEach(jobs: seq<Job>)
  {
    forall k, l :: 0 <= k < l < |jobs| && jobs[k].status == Assigned && jobs[l].status == Assigned
      ==> jobs[k].worker != jobs[l].worker
  }

  predicate HeldBy(job: Job, wallet: string)
  {
    job.status == Assigned && job.worker == Some(wallet)
  }

  ghost predicate HasJob(jobs: seq<Job>, wallet: string)
  {
    exists k :: 0 <= k < |jobs| && HeldBy(jobs[k], wallet)
  }

  /** Nobody is kept busy by nothing. */
  ghost predicate BusyHaveJobs(ws: seq<Worker>, jobs: seq<Job>)
  {
    forall i :: 0 <= i < |ws| && !ws[i].available ==> HasJob(jobs, ws[i].wallet)
  }

  function PaidTo(payments: seq<Payment>, wallet: string): int
  {
    SumOf(payments, (p: Payment) => if p.worker == wallet then p.amount else 0)
  }

  /** Every worker earned what was paid to its wallet, and only registered wallets were paid. */
  ghost predicate BooksMatch(m: Market)
  {
    && (forall i :: 0 <= i < |m.workers| ==> m.workers[i].earned == PaidTo(m.payments, m.workers[i].wallet))
    && (forall n :: 0 <= n < |m.payments| ==> FirstIndex(m.workers, WalletIs(m.payments[n].worker)).Some?)
    && SumOf(m.payments, (p: Payment) => p.amount) == SumOf(m.workers, (w: Worker) => w.earned)
  }

  ghost predicate Sound(m: Market)
  {
    && OwnWallets(m.workers) && OneJobEach(m.jobs) && BusyHaveJobs(m.workers, m.jobs) && BooksMatch(m)
    && forall k :: 0 <= k < |m.jobs| ==> Staffed(m.workers, m.jobs[k])
  }

  // ---------------------------------------------------------------- workers that change in place

  /** One worker changed, not its wallet. */
  ghost predicate OneChanged(ws: seq<Worker>, ws': seq<Worker>, i: nat)
  {
    && i < |ws| && |ws'| == |ws| && ws'[i].wallet == ws[i].wallet
    && forall j :: 0 <= j < |ws| && j != i ==> ws'[j] == ws[j]
  }

  lemma {:induction false} WalletIndexKept(ws: seq<Worker>, ws': seq<Worker>, i: nat, wallet: string)
    requires OneChanged(ws, ws', i)
    ensures FirstIndex(ws', WalletIs(wallet)) == FirstIndex(ws, WalletIs(wallet))
  {}

  lemma {:induction false} OwnWalletIndex(ws: seq<Worker>, i: nat)
    requires OwnWallets(ws) && i < |ws|
    ensures FirstIndex(ws, WalletIs(ws[i].wallet)) == Some(i)
  {}

  /** A change that leaves the earnings alone, or adds one payment to them. */
  lemma {:induction false} EarningsChange(ws: seq<Worker>, ws': seq<Worker>, i: nat)
    requires OneChanged(ws, ws', i)
    ensures SumOf(ws', (w: Worker) => w.earned) == SumOf(ws, (w: Worker) => w.earned) + ws'[i].earned - ws[i].earned
  {
    SumOfWithout(ws, i, (w: Worker) => w.earned);
    SumOfWithout(ws', i, (w: Worker) => w.earned);
    assert ws'[..i] + ws'[i + 1..] == ws[..i] + ws[i + 1..];
  }

  lemma {:induction false} SameBooks(m: Market, m': Market, i: nat)
    requires BooksMatch(m) && OneChanged(m.workers, m'.workers, i) && m'.workers[i].earned == m.workers[i].earned
    requires m'.payments == m.payments
    ensures BooksMatch(m')
  {
    EarningsChange(m.workers, m'.workers, i);
    forall n | 0 <= n < |m.payments| ensures FirstIndex(m'.workers, WalletIs(m.payments[n].worker)).Some? {
      WalletIndexKept(m.workers, m'.workers, i, m.payments[n].worker);
    }
  }

  // ---------------------------------------------------------------- assigning

  lemma {:induction false} AssignKeepsSound(m: Market, k: nat, now: real, after: Market)
    requires k < |m.jobs| && Sound(m) && after == TryAssign(m, k, now)
    ensures Sound(after)
  {
    var job := m.jobs[k];
    var best := BestWorker(m.workers, job.minVram, job.maxPrice, now);
    if job.status == JobStatus.Pending && best.Some? {
      BestWorkerIsBest(m.workers, job.minVram, job.maxPrice, now);
      AssigningKeepsSound(m, after, k, best.value);
    }
  }

  /** Pending job k goes to the free worker i. */
  lemma {:induction false} AssigningKeepsSound(m: Market, m': Market, k: nat, i: nat)
    requires Sound(m) && k < |m.jobs| && m.jobs[k].status == JobStatus.Pending && i < |m.workers|
    requires m.workers[i].available
    requires m'.jobs == m.jobs[k := m.jobs[k].(status := Assigned, worker := Some(m.workers[i].wallet))]
    requires m'.workers == m.workers[i := m.workers[i].(available := false)] && m'.payments == m.payments
    ensures Sound(m')
  {
    SameBooks(m, m', i);
    forall l | 0 <= l < |m.jobs|
      ensures Staffed(m'.workers, m'.jobs[l])
      ensures l != k && m.jobs[l].status == Assigned ==> m.jobs[l].worker != Some(m.workers[i].wallet)
    {
      AssignedElsewhere(m, l, i);
      AssigningKeepsStaffed(m, m', k, i, l);
    }
    forall j | 0 <= j < |m'.workers| && !m'.workers[j].available ensures HasJob(m'.jobs, m'.workers[j].wallet) {
      if j == i {
        assert HeldBy(m'.jobs[k], m.workers[i].wallet);
      } else {
        assert HasJob(m.jobs, m.workers[j].wallet);
        var l :| 0 <= l < |m.jobs| && HeldBy(m.jobs[l], m.workers[j].wallet);
        assert HeldBy(m'.jobs[l], m.workers[j].wallet);
      }
    }
  }

  lemma {:induction false} AssigningKeepsStaffed(m: Market, m': Market, k: nat, i: nat, l: nat)
    requires Sound(m) && k < |m.jobs| && i < |m.workers| && m.workers[i].available && l < |m.jobs|
    requires m'.jobs == m.jobs[k := m.jobs[k].(status := Assigned, worker := Some(m.workers[i].wallet))]
    requires m'.workers == m.workers[i := m.workers[i].(available := false)]
    ensures Staffed(m'.workers, m'.jobs[l])
  {
    assert Staffed(m.workers, m.jobs[l]);
    if l == k {
      OwnWalletIndex(m.workers, i);
      WalletIndexKept(m.workers, m'.workers, i, m.workers[i].wallet);
    } else if m.jobs[l].status == Assigned {
      WalletIndexKept(m.workers, m'.workers, i, m.jobs[l].worker.value);
    }
  }

  /** A free worker has no assigned job. */
  lemma {:induction false} AssignedElsewhere(m: Market, l: nat, i: nat)
    requires Sound(m) && l < |m.jobs| && i < |m.workers| && m.workers[i].available
    ensures m.jobs[l].status == Assigned ==> m.jobs[l].worker != Some(m.workers[i].wallet)
  {}

  lemma {:induction false} RetryKeepsSound(m: Market, k: nat, now: real, after: Market)
    requires k <= |m.jobs| && Sound(m) && after == RetryPending(m, k, now)
    ensures Sound(after)
  {
    forall n: Market, j: nat | j < |n.jobs| && Sound(n) ensures Sound(TryAssign(n, j, now)) {
      AssignKeepsSound(n, j, now, TryAssign(n, j, now));
    }
    RetryKeeps(n => Sound(n), m, k, now);
  }

  /** Used below only through what one assignment keeps. */
  lemma {:induction false} RetryKeeps(inv: Market -> bool, m: Market, k: nat, now: real)
    requires k <= |m.jobs| && inv(m) && forall n: Market, j: nat :: j < |n.jobs| && inv(n) ==> inv(TryAssign(n, j, now))
    ensures inv(RetryPending(m, k, now))
  {
    if k > 0 { RetryKeeps(inv, m, k - 1, now); }
  }

  // ---------------------------------------------------------------- releasing

  /** Job k leaves the assigned state and its worker i becomes free. */
  lemma {:induction false} ReleaseKeepsStaffed(m: Market, m': Market, k: nat, i: nat)
    requires Sound(m) && k < |m.jobs| && m.jobs[k].status == Assigned && i < |m.workers|
    requires m.jobs[k].worker == Some(m.workers[i].wallet)
    requires OneChanged(m.workers, m'.workers, i) && m'.workers[i].available
    requires |m'.jobs| == |m.jobs| && (m'.jobs[k].status == Completed || m'.jobs[k].status == Failed)
    requires forall l :: 0 <= l < |m.jobs| && l != k ==> m'.jobs[l] == m.jobs[l]
    ensures OwnWallets(m'.workers) && OneJobEach(m'.jobs) && BusyHaveJobs(m'.workers, m'.jobs)
    ensures forall l :: 0 <= l < |m'.jobs| ==> Staffed(m'.workers, m'.jobs[l])
  {
    forall j | 0 <= j < |m'.workers| && !m'.workers[j].available ensures HasJob(m'.jobs, m'.workers[j].wallet) {
      assert HasJob(m.jobs, m.workers[j].wallet);
      var l :| 0 <= l < |m.jobs| && HeldBy(m.jobs[l], m.workers[j].wallet);
      assert l != k by { if i < j { assert m.workers[i].wallet != m.workers[j].wallet; } }
      assert HeldBy(m'.jobs[l], m.workers[j].wallet);
    }
    forall l | 0 <= l < |m'.jobs| ensures Staffed(m'.workers, m'.jobs[l]) {
      if l != k {
        assert Staffed(m.workers, m.jobs[l]);
        if m.jobs[l].status == Assigned {
          WalletIndexKept(m.workers, m'.workers, i, m.jobs[l].worker.value);
          OwnWalletIndex(m.workers, i);
          assert m.jobs[l].worker != m.jobs[k].worker;
        }
      }
    }
  }

  lemma {:induction false} OnePayment(payments: seq<Payment>, p: Payment, wallet: string)
    ensures PaidTo(payments + [p], wallet) == PaidTo(payments, wallet) + if p.worker == wallet then p.amount else 0
    ensures SumOf(payments + [p], (q: Payment) => q.amount) == SumOf(payments, (q: Payment) => q.amount) + p.amount
  {}

  lemma {:induction false} PaymentKeepsBooks(m: Market, m': Market, i: nat, p: Payment)
    requires BooksMatch(m) && OwnWallets(m.workers) && OneChanged(m.workers, m'.workers, i)
    requires p.worker == m.workers[i].wallet && m'.workers[i].earned == m.workers[i].earned + p.amount
    requires m'.payments == m.payments + [p]
    ensures BooksMatch(m')
  {
    EarningsChange(m.workers, m'.workers, i);
    forall j | 0 <= j < |m'.workers| ensures m'.workers[j].earned == PaidTo(m'.payments, m'.workers[j].wallet) {
      OnePayment(m.payments, p, m.workers[j].wallet);
    }
    OnePayment(m.payments, p, p.worker);
    OwnWalletIndex(m.workers, i);
    forall n | 0 <= n < |m'.payments| ensures FirstIndex(m'.workers, WalletIs(m'.payments[n].worker)).Some? {
      WalletIndexKept(m.workers, m'.workers, i, m'.payments[n].worker);
      if n < |m.payments| { assert m'.payments[n] == m.payments[n]; }
    }
  }

  lemma {:induction false} ProofKeepsSound(checks: Checks, m: Market, p: Proof)
    requires Sound(m)
    ensures Sound(SubmitProof(checks, m, p).0)
  {
    if SubmitProof(checks, m, p).1 {
      var k := FirstIndex(m.jobs, JobId(p.jobId)).value;
      var m' := SubmitProof(checks, m, p).0;
      assert Staffed(m.workers, m.jobs[k]);
      var i := FirstIndex(m.workers, WalletIs(p.worker)).value;
      assert m.workers[i].wallet == p.worker;
      ReleaseKeepsStaffed(m, m', k, i);
      PaymentKeepsBooks(m, m', i, m'.payments[|m.payments|]);
    }
  }

  // ---------------------------------------------------------------- failing

  /** Failing a job whose worker is free, or was never assigned, frees nobody. */
  lemma {:induction false} FailKeepsSound(m: Market, k: nat, newId: string, now: real)
    requires Sound(m) && k < |m.jobs| && MayFail(m, m.jobs[k])
    ensures Sound(TryAssign(Requeued(m, k, newId, now), |m.jobs|, now))
  {
    var queued := Requeued(m, k, newId, now);
    var failed := queued.(jobs := queued.jobs[..|m.jobs|]);
    assert Staffed(m.workers, m.jobs[k]);
    var i := WorkerOf(m.workers, m.jobs[k].worker);
    if i.None? {
      FailUnstaffed(m, failed, k);
    } else if m.jobs[k].status == Assigned {
      ReleaseKeepsStaffed(m, failed, k, i.value);
      SameBooks(m, failed, i.value);
    } else {
      FailFreeWorker(m, failed, k, i.value);
    }
    QueuePending(failed, queued);
    AssignKeepsSound(queued, |m.jobs|, now, TryAssign(queued, |m.jobs|, now));
  }

  lemma {:induction false} AssignedHasWorker(m: Market, k: nat)
    requires Sound(m) && k < |m.jobs| && m.jobs[k].status == Assigned
    ensures WorkerOf(m.workers, m.jobs[k].worker).Some?
  {}

  lemma {:induction false} FailUnstaffed(m: Market, m': Market, k: nat)
    requires Sound(m) && k < |m.jobs| && WorkerOf(m.workers, m.jobs[k].worker).None?
    requires m' == m.(jobs := m.jobs[k := m.jobs[k].(status := Failed)])
    ensures Sound(m')
  {
    if m.jobs[k].status == Assigned { AssignedHasWorker(m, k); }
    OthersHeld(m, m', k);
    forall l | 0 <= l < |m.jobs| ensures Staffed(m'.workers, m'.jobs[l]) { assert Staffed(m.workers, m.jobs[l]); }
  }

  lemma {:induction false} FailFreeWorker(m: Market, m': Market, k: nat, i: nat)
    requires Sound(m) && k < |m.jobs| && m.jobs[k].status != Assigned && i < |m.workers| && m.workers[i].available
    requires m' == m.(jobs := m.jobs[k := m.jobs[k].(status := Failed)],
                      workers := m.workers[i := AfterFailure(m.workers[i])])
    ensures Sound(m')
  {
    SameBooks(m, m', i);
    OthersHeld(m, m', k);
    forall l | 0 <= l < |m.jobs| ensures Staffed(m'.workers, m'.jobs[l]) {
      assert Staffed(m.workers, m.jobs[l]);
      AssignedElsewhere(m, l, i);
      if l != k && m.jobs[l].status == Assigned { WalletIndexKept(m.workers, m'.workers, i, m.jobs[l].worker.value); }
    }
  }

  lemma {:induction false} OthersHeld(m: Market, m': Market, k: nat)
    requires BusyHaveJobs(m.workers, m.jobs) && k < |m.jobs| && m.jobs[k].status != Assigned
    requires |m'.workers| == |m.workers| && |m'.jobs| == |m.jobs|
    requires forall i :: 0 <= i < |m.workers| ==>
      m'.workers[i].wallet == m.workers[i].wallet && m'.workers[i].available == m.workers[i].available
    requires forall l :: 0 <= l < |m.jobs| && l != k ==> m'.jobs[l] == m.jobs[l]
    ensures BusyHaveJobs(m'.workers, m'.jobs)
  {}

  /** The condition is exact: failing a finished job whose worker works on another one frees that worker,
      or gives it a second assigned job. */
  lemma {:induction false} FailSoundExactly(m: Market, k: nat, newId: string, now: real)
    requires Sound(m) && k < |m.jobs|
    ensures Sound(TryAssign(Requeued(m, k, newId, now), |m.jobs|, now)) <==> MayFail(m, m.jobs[k])
  {
    if MayFail(m, m.jobs[k]) {
      FailKeepsSound(m, k, newId, now);
    } else {
      FreedTooEarly(m, k, newId, now);
    }
  }

  lemma {:induction false} FreedTooEarly(m: Market, k: nat, newId: string, now: real)
    requires Sound(m) && k < |m.jobs| && !MayFail(m, m.jobs[k])
    ensures !Sound(TryAssign(Requeued(m, k, newId, now), |m.jobs|, now))
  {
    var i, l := BusyElsewhere(m, k);
    var queued := Requeued(m, k, newId, now);
    FreedWithJob(queued, |m.jobs|, i, l, now);
  }

  /** The finished job's worker is busy with another job. */
  lemma {:induction false} BusyElsewhere(m: Market, k: nat) returns (i: nat, l: nat)
    requires Sound(m) && k < |m.jobs| && !MayFail(m, m.jobs[k])
    ensures i < |m.workers| && l < |m.jobs| && l != k && HeldBy(m.jobs[l], m.workers[i].wallet)
    ensures WorkerOf(m.workers, m.jobs[k].worker) == Some(i)
  {
    i := FirstIndex(m.workers, WalletIs(m.jobs[k].worker.value)).value;
    assert m.workers[i].wallet != "" && HasJob(m.jobs, m.workers[i].wallet);
    l :| 0 <= l < |m.jobs| && HeldBy(m.jobs[l], m.workers[i].wallet);
  }

  /** A free worker that holds job l: once job k has been tried, either it still counts as free, or it
      holds job k as well. */
  lemma {:induction false} FreedWithJob(m: Market, k: nat, i: nat, l: nat, now: real)
    requires OwnWallets(m.workers) && i < |m.workers| && m.workers[i].available
    requires l < |m.jobs| && HeldBy(m.jobs[l], m.workers[i].wallet)
    requires k < |m.jobs| && m.jobs[k].status == JobStatus.Pending
    ensures !Sound(TryAssign(m, k, now))
  {
    var after := TryAssign(m, k, now);
    assert HeldBy(after.jobs[l], m.workers[i].wallet);
    OwnWalletIndex(after.workers, i);
    if after.workers[i].available {
      assert !Staffed(after.workers, after.jobs[l]);
    } else {
      assert HeldBy(after.jobs[k], m.workers[i].wallet);
      assert !OneJobEach(after.jobs);
    }
  }

  lemma {:induction false} QueuePending(m: Market, m': Market)
    requires Sound(m) && m'.workers == m.workers && m'.payments == m.payments
    requires |m'.jobs| == |m.jobs| + 1 && m'.jobs[..|m.jobs|] == m.jobs
    requires m'.jobs[|m.jobs|].status == JobStatus.Pending && m'.jobs[|m.jobs|].worker == None
    ensures Sound(m')
  {}

  // ---------------------------------------------------------------- registering

  lemma {:induction false} RegisterKeepsSound(m: Market, w: Worker, now: real)
    requires Sound(m) && NewWorker(m.workers, w)
    ensures Sound(m.(workers := Registered(m.workers, w, now)))
  {
    assert Registered(m.workers, w, now) == m.workers + [HeartbeatAt(w, now)];
    RegisterKeepsBooks(m, w, now);
    RegisterKeepsStaff(m.workers, m.jobs, w, HeartbeatAt(w, now));
  }

  lemma {:induction false} RegisterKeepsStaff(ws: seq<Worker>, jobs: seq<Job>, w: Worker, seen: Worker)
    requires OwnWallets(ws) && BusyHaveJobs(ws, jobs) && NewWorker(ws, w) && seen == w.(lastSeen := seen.lastSeen)
    requires forall k :: 0 <= k < |jobs| ==> Staffed(ws, jobs[k])
    ensures OwnWallets(ws + [seen]) && BusyHaveJobs(ws + [seen], jobs)
    ensures forall k :: 0 <= k < |jobs| ==> Staffed(ws + [seen], jobs[k])
  {
    forall j | 0 <= j < |ws| ensures ws[j].wallet != w.wallet { assert !WalletIs(w.wallet)(ws[j]); }
    forall k | 0 <= k < |jobs| ensures Staffed(ws + [seen], jobs[k]) { StaffedAmongMore(ws, seen, jobs[k]); }
  }

  lemma {:induction false} StaffedAmongMore(ws: seq<Worker>, w: Worker, job: Job)
    requires Staffed(ws, job)
    ensures Staffed(ws + [w], job)
  {}

  lemma {:induction false} RegisterKeepsBooks(m: Market, w: Worker, now: real)
    requires BooksMatch(m) && NewWorker(m.workers, w)
    ensures BooksMatch(m.(workers := m.workers + [HeartbeatAt(w, now)]))
  {
    var ws' := m.workers + [HeartbeatAt(w, now)];
    assert ws'[..|m.workers|] == m.workers;
    NothingPaid(m, w.wallet, |m.payments|);
    assert m.payments[..|m.payments|] == m.payments;
  }

  /** Nothing was ever paid to a wallet that is not registered. */
  lemma {:induction false} NothingPaid(m: Market, wallet: string, n: nat)
    requires BooksMatch(m) && FirstIndex(m.workers, WalletIs(wallet)).None? && n <= |m.payments|
    ensures PaidTo(m.payments[..n], wallet) == 0
  {
    if n > 0 {
      NothingPaid(m, wallet, n - 1);
      assert m.payments[..n][..n - 1] == m.payments[..n - 1];
    }
  }

  // ---------------------------------------------------------------- whole runs

  lemma {:induction false} StepKeepsSound(checks: Checks, m: Market, e: Event)
    requires Sound(m) && Fair(m, e)
    ensures Sound(Step(checks, m, e))
  {
    match e
    case Registers(w, now) => RegisterKeepsSound(m, w, now);
    case Heartbeats(id, now) => HeartbeatKeepsSound(m, id, now);
    case Submits(job, now) =>
      if SubmitJob(m, job, now).1 {
        QueuePending(m, m.(jobs := m.jobs + [job]));
        AssignKeepsSound(m.(jobs := m.jobs + [job]), |m.jobs|, now, Step(checks, m, e));
      }
    case Proves(proof) => ProofKeepsSound(checks, m, proof);
    case Fails(id, newId, now) =>
      var at := FirstIndex(m.jobs, JobId(id));
      if at.Some? { FailKeepsSound(m, at.value, newId, now); }
    case Expires(now) => ExpireKeepsSound(m, now);
    case Retries(now) => RetryKeepsSound(m, |m.jobs|, now, Step(checks, m, e));
  }

  lemma {:induction false} HeartbeatKeepsSound(m: Market, id: string, now: real)
    requires Sound(m)
    ensures Sound(m.(workers := Heartbeat(m.workers, id, now)))
  {
    var at := FirstIndex(m.workers, WorkerId(id));
    if at.Some? {
      var m' := m.(workers := Heartbeat(m.workers, id, now));
      SameBooks(m, m', at.value);
      forall k | 0 <= k < |m.jobs| ensures Staffed(m'.workers, m.jobs[k]) {
        assert Staffed(m.workers, m.jobs[k]);
        if m.jobs[k].status == Assigned { WalletIndexKept(m.workers, m'.workers, at.value, m.jobs[k].worker.value); }
      }
    }
  }

  lemma {:induction false} ExpireKeepsSound(m: Market, now: real)
    requires Sound(m)
    ensures Sound(m.(jobs := Expire(m.jobs, now)))
  {}

  /** After every fair run: no worker holds two assigned jobs, a worker is marked busy exactly when it
      holds one, every worker earned exactly what was paid to it, and the payment log adds up to all earnings. */
  lemma {:induction false} MarketIsSound(checks: Checks, events: seq<Event>)
    requires FairRun(checks, events)
    ensures Sound(Run(checks, events))
  {
    if events != [] {
      MarketIsSound(checks, events[..|events| - 1]);
      StepKeepsSound(checks, Run(checks, events[..|events| - 1]), events[|events| - 1]);
    }
  }
}
