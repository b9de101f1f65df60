/** The compute market on values: queueing, assignment, proofs and payment (border/compute/market.py). */
module Markets {
  import opened Numbers
  import opened Wrappers
  import opened Sequences
  import opened Economics
  import opened Workers

  const JOB_TIMEOUT: real := 300.0

  datatype JobStatus = Pending | Assigned | Completed | Failed | Expired

  /** Prices are satoshi. */
  datatype Job = Job(id: string, client: string, input: string, maxPrice: int, minVram: int, submittedAt: real,
                     status: JobStatus, worker: Option<string>)
  {
    predicate IsExpired(now: real) { status == Pending && now - submittedAt > JOB_TIMEOUT }
  }

  /** The price is in coins, as the worker states it. */
  datatype Proof = Proof(proofId: string, jobId: string, worker: string, client: string, seconds: real, bytes: int,
                         inputHash: string, publicKey: string, signature: string, price: real)
  {
    /** Hours at two coins, gigabytes at a tenth, or the agreed price if that is more; in satoshi. */
    function Reward(): int
    {
      Round(MaxReal(seconds / 3600.0 * 2.0 + bytes as real / 1073741824.0 * 0.1, price) * 100000000.0)
    }
  }

  datatype Payment = Payment(jobId: string, worker: string, client: string, amount: int)

  datatype Market = Market(workers: seq<Worker>, jobs: seq<Job>, proofs: map<string, Proof>, payments: seq<Payment>)

  /** Hash of a job's input, and the check of a worker's signature. */
  datatype Checks = Checks(inputHash: string -> string, verify: Proof -> bool)

  const NEW_MARKET := Market([], [], map[], [])

  // ---------------------------------------------------------------- lookups

  function WorkerId(id: string): Worker -> bool { (w: Worker) => w.id == id }

  function WalletIs(wallet: string): Worker -> bool { (w: Worker) => w.wallet == wallet }

  function JobId(id: string): Job -> bool { (j: Job) => j.id == id }

  /** The first worker with this wallet; no wallet, no worker. */
  function WorkerOf(ws: seq<Worker>, wallet: Option<string>): Option<nat>
  {
    if wallet.None? || wallet.value == "" then None else FirstIndex(ws, WalletIs(wallet.value))
  }

  // ---------------------------------------------------------------- operations

  /** A known id is replaced in its place. */
  function Registered(ws: seq<Worker>, w: Worker, now: real): seq<Worker>
  {
    var at := FirstIndex(ws, WorkerId(w.id));
    if at.None? then ws + [HeartbeatAt(w, now)] else ws[at.value := HeartbeatAt(w, now)]
  }

  function Heartbeat(ws: seq<Worker>, id: string, now: real): seq<Worker>
  {
    var at := FirstIndex(ws, WorkerId(id));
    if at.None? then ws else ws[at.value := HeartbeatAt(ws[at.value], now)]
  }

  function TryAssign(m: Market, k: nat, now: real): Market
    requires k < |m.jobs|
  {
    var job := m.jobs[k];
    var best := BestWorker(m.workers, job.minVram, job.maxPrice, now);
    if job.status != Pending || best.None? then m
    else
      var w := m.workers[best.value];
      m.(jobs := m.jobs[k := job.(status := Assigned, worker := Some(w.wallet))],
         workers := m.workers[best.value := w.(available := false)])
  }

  function SubmitJob(m: Market, job: Job, now: real): (Market, bool)
  {
    if FirstIndex(m.jobs, JobId(job.id)).Some? || job.maxPrice <= 0 then (m, false)
    else (TryAssign(m.(jobs := m.jobs + [job]), |m.jobs|, now), true)
  }

  function Earned(job: Job, p: Proof): int
  {
    if p.Reward() > job.maxPrice * 2 then job.maxPrice else p.Reward()
  }

  predicate Acceptable(checks: Checks, m: Market, job: Job, p: Proof)
  {
    && job.status == Assigned && job.worker == Some(p.worker) && p.jobId !in m.proofs
    && (p.publicKey == "" || (p.signature != "" && checks.verify(p)))
    && p.inputHash == checks.inputHash(job.input)
  }

  function SubmitProof(checks: Checks, m: Market, p: Proof): (Market, bool, int)
  {
    var at := FirstIndex(m.jobs, JobId(p.jobId));
    if at.None? || !Acceptable(checks, m, m.jobs[at.value], p) then (m, false, 0)
    else
      var job := m.jobs[at.value];
      var amount := Earned(job, p);
      var i := WorkerOf(m.workers, Some(p.worker));
      (Market(if i.None? then m.workers else m.workers[i.value := AfterCompletion(m.workers[i.value], amount)],
              m.jobs[at.value := job.(status := Completed)],
              m.proofs[p.jobId := p],
              m.payments + [Payment(p.jobId, p.worker, p.client, amount)]), true, amount)
  }

  /** Fails a job in whatever state it is, frees its worker and queues a copy under a fresh id. */
  function FailJob(m: Market, id: string, newId: string, now: real): (Market, bool)
  {
    var at := FirstIndex(m.jobs, JobId(id));
    if at.None? then (m, false)
    else
      var job := m.jobs[at.value];
      (TryAssign(Requeued(m, at.value, newId, now), |m.jobs|, now), true)
  }

  function Requeued(m: Market, k: nat, newId: string, now: real): (r: Market)
    requires k < |m.jobs|
    ensures |r.jobs| == |m.jobs| + 1
  {
    var job := m.jobs[k];
    var i := WorkerOf(m.workers, job.worker);
    var retry := job.(id := newId, submittedAt := now, status := Pending, worker := None);
    m.(workers := if i.None? then m.workers else m.workers[i.value := AfterFailure(m.workers[i.value])],
       jobs := m.jobs[k := job.(status := Failed)] + [retry])
  }

  function Expire(jobs: seq<Job>, now: real): (r: seq<Job>)
    ensures |r| == |jobs|
    ensures forall k :: 0 <= k < |jobs| ==>
      r[k] == if jobs[k].IsExpired(now) then jobs[k].(status := JobStatus.Expired) else jobs[k]
  {
    seq(|jobs|, k requires 0 <= k < |jobs| =>
      if jobs[k].IsExpired(now) then jobs[k].(status := JobStatus.Expired) else jobs[k])
  }

  /** Tries the first k jobs in the order they were queued. */
  function RetryPending(m: Market, k: nat, now: real): (r: Market)
    requires k <= |m.jobs|
    ensures |r.jobs| == |m.jobs|
  {
    if k == 0 then m else TryAssign(RetryPending(m, k - 1, now), k - 1, now)
  }

  // ---------------------------------------------------------------- runs

  datatype Event =
    | Registers(worker: Worker, now: real)
    | Heartbeats(id: string, now: real)
    | Submits(job: Job, now: real)
    | Proves(proof: Proof)
    | Fails(id: string, newId: string, now: real)
    | Expires(now: real)
    | Retries(now: real)

  function Step(checks: Checks, m: Market, e: Event): Market
  {
    match e
    case Registers(w, now) => m.(workers := Registered(m.workers, w, now))
    case Heartbeats(id, now) => m.(workers := Heartbeat(m.workers, id, now))
    case Submits(job, now) => SubmitJob(m, job, now).0
    case Proves(proof) => SubmitProof(checks, m, proof).0
    case Fails(id, newId, now) => FailJob(m, id, newId, now).0
    case Expires(now) => m.(jobs := Expire(m.jobs, now))
    case Retries(now) => RetryPending(m, |m.jobs|, now)
  }

  function Run(checks: Checks, events: seq<Event>): Market
  {
    if events == [] then NEW_MARKET
    else Step(checks, Run(checks, events[..|events| - 1]), events[|events| - 1])
  }
}
