/** Proposals, votes and their execution on values (border/dao/governance.py, proposal.py). */
module Governance {
  import opened Wrappers
  import opened Treasuries

  datatype Status = Draft | Active | Passed | Rejected | Executed | Expired

  datatype Choice = Yes | No | Abstain

  /** What a proposal does when executed; a missing text is the empty one. */
  datatype Payload =
    | SetParameter(key: string, number: Option<real>)
    | PayOut(recipient: string, amount: int, note: string)
    | EnableFeature(flag: string)
    | SlashStake(target: string, amount: int)
    | CustomAction

  datatype Proposal = Proposal(id: string, payload: Payload, votingEndsAt: real, status: Status,
                               executedAt: Option<real>, yes: int, no: int, abstain: int)
  {
    function TotalVotes(): int { yes + no + abstain }

    predicate QuorumMet(supply: int)
    {
      supply > 0 && TotalVotes() as real / supply as real >= 0.10
    }

    predicate MajorityYes()
    {
      yes + no > 0 && yes as real / (yes + no) as real >= 0.51
    }

    predicate WouldPass(supply: int) { QuorumMet(supply) && MajorityYes() }

    predicate IsExpired(now: real) { now > votingEndsAt }
  }

  datatype Vote = Vote(proposalId: string, voter: string, choice: Choice, weight: int, signature: string)

  datatype Engine = Engine(proposals: map<string, Proposal>, votes: map<string, map<string, Vote>>,
                           parameters: map<string, real>, treasury: Treasury)

  /** Raised is the AttributeError of a valid slash: the engine has no chain to slash on. */
  datatype Outcome = Ok | Refused | Raised

  const MIN_PROPOSAL_STAKE: int := 10_00000000

  const ALLOWED_KEYS := {"tx_fee_pct", "min_stake_to_work", "bc_per_gb_per_day", "bc_per_compute_hour",
    "bc_per_inference_token", "block_reward", "min_bytes_per_block", "compute_reward_multiplier",
    "storage_reward_multiplier"}

  const DEFAULT_PARAMETERS := map["min_bytes_per_block" := 104857600.0, "block_reward" := 1.0, "bc_per_gb" := 1.0,
    "bc_per_compute_hour" := 2.0, "bc_per_gb_per_day" := 0.01, "min_stake_to_work" := 5.0, "min_stake_to_store" := 2.0,
    "min_stake_to_infer" := 5.0, "min_stake_to_render" := 10.0, "tx_fee_pct" := 0.01]

  const NEW_ENGINE := Engine(map[], map[], DEFAULT_PARAMETERS, NEW_TREASURY)

  // ---------------------------------------------------------------- proposing and voting

  function Submit(g: Engine, p: Proposal, proposerBalance: int): (Engine, Outcome)
  {
    if proposerBalance < MIN_PROPOSAL_STAKE || p.id in g.proposals then (g, Refused)
    else (g.(proposals := g.proposals[p.id := p.(status := Active)], votes := g.votes[p.id := map[]]), Ok)
  }

  function Weighted(p: Proposal, choice: Choice, weight: int): Proposal
  {
    match choice
    case Yes => p.(yes := p.yes + weight)
    case No => p.(no := p.no + weight)
    case Abstain => p.(abstain := p.abstain + weight)
  }

  function Finalise(p: Proposal, supply: int): Proposal
  {
    p.(status := if p.WouldPass(supply) then Passed else Rejected)
  }

  /** The ballots of a proposal, one per voter. */
  function BallotsOf(g: Engine, id: string): map<string, Vote>
  {
    if id in g.votes then g.votes[id] else map[]
  }

  function Record(g: Engine, v: Vote): Engine
    requires v.proposalId in g.proposals
  {
    var p, ballots := g.proposals[v.proposalId], BallotsOf(g, v.proposalId);
    var cleared := if v.voter in ballots then Weighted(p, ballots[v.voter].choice, -ballots[v.voter].weight) else p;
    g.(proposals := g.proposals[v.proposalId := Weighted(cleared, v.choice, v.weight)],
       votes := g.votes[v.proposalId := ballots[v.voter := v]])
  }

  /** authentic: no key was supplied, or the signature verifies under it. A vote after the end of the
      voting period closes the proposal as if nothing had ever been issued. */
  function CastVote(g: Engine, v: Vote, authentic: bool, now: real): (Engine, Outcome)
  {
    if !authentic || v.proposalId !in g.proposals then (g, Refused)
    else
      var p := g.proposals[v.proposalId];
      if p.status != Active then (g, Refused)
      else if p.IsExpired(now) then (g.(proposals := g.proposals[v.proposalId := Finalise(p, 0)]), Refused)
      else if v.weight <= 0 then (g, Refused)
      else (Record(g, v), Ok)
  }

  // ---------------------------------------------------------------- closing and executing

  /** The status reported; an unknown proposal reports Draft. */
  function Tally(g: Engine, id: string, supply: int): (Engine, Status)
  {
    if id !in g.proposals then (g, Draft)
    else
      var p := g.proposals[id];
      if p.status != Active then (g, p.status)
      else (g.(proposals := g.proposals[id := Finalise(p, supply)]), Finalise(p, supply).status)
  }

  function ExecutePayload(g: Engine, p: Proposal): (Engine, Outcome)
  {
    match p.payload
    case SetParameter(key, number) =>
      if key !in ALLOWED_KEYS || number.None? || number.value < 0.0 then (g, Refused)
      else (g.(parameters := g.parameters[key := number.value],
               treasury := WithRate(g.treasury, key, number.value)), Ok)
    case PayOut(recipient, amount, note) =>
      if recipient == "" || amount <= 0 || !CanSpend(g.treasury, amount) then (g, Refused)
      else (g.(treasury := Spent(g.treasury, Spend(p.id, recipient, amount, note))), Ok)
    case EnableFeature(flag) =>
      if flag == "" then (g, Refused) else (g.(parameters := g.parameters["feature_" + flag := 1.0]), Ok)
    case SlashStake(target, amount) => (g, if target == "" || amount <= 0 then Refused else Raised)
    case CustomAction => (g, Ok)
  }

  function Execute(g: Engine, id: string, now: real): (Engine, Outcome)
  {
    if id !in g.proposals || g.proposals[id].status != Passed then (g, Refused)
    else
      var p := g.proposals[id];
      var (after, outcome) := ExecutePayload(g, p);
      if outcome != Ok then (after, outcome)
      else (after.(proposals := after.proposals[id := p.(status := Executed, executedAt := Some(now))]), Ok)
  }

  // ---------------------------------------------------------------- runs

  datatype Event =
    | Submits(proposal: Proposal, balance: int)
    | Votes(vote: Vote, authentic: bool, now: real)
    | Tallies(id: string, supply: int)
    | Executes(id: string, now: real)
    | Collects(entry: Entry)

  function Step(g: Engine, e: Event): Engine
  {
    match e
    case Submits(p, balance) => Submit(g, p, balance).0
    case Votes(v, authentic, now) => CastVote(g, v, authentic, now).0
    case Tallies(id, supply) => Tally(g, id, supply).0
    case Executes(id, now) => Execute(g, id, now).0
    case Collects(entry) => g.(treasury := Collected(g.treasury, entry))
  }

  function Run(events: seq<Event>): Engine
  {
    if events == [] then NEW_ENGINE else Step(Run(events[..|events| - 1]), events[|events| - 1])
  }
}
