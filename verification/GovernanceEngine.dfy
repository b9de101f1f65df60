/** The mutable governance engine: dictionaries of proposals and votes, and a treasury object. */
module GovernanceObject {
  import opened Wrappers
  import opened Treasuries
  import opened Governance

  /** A supplied key has to verify the signature; without a key every vote is taken as it is. */
  predicate Authentic(verify: (string, Vote) -> bool, v: Vote, publicKey: string)
  {
    publicKey == "" || (v.signature != "" && verify(publicKey, v))
  }

  class GovernanceEngine {
    const treasury: BorderTreasury
    const verify: (string, Vote) -> bool
    var proposals: map<string, Proposal>
    var votes: map<string, map<string, Vote>>
    var parameters: map<string, real>

    constructor (treasury: BorderTreasury, verify: (string, Vote) -> bool)
      ensures this.treasury == treasury && this.verify == verify
      ensures Value() == NEW_ENGINE.(treasury := treasury.Value())
    {
      this.treasury, this.verify := treasury, verify;
      proposals, votes, parameters := map[], map[], DEFAULT_PARAMETERS;
    }

    ghost function Value(): Engine
      reads this, treasury
    {
      Engine(proposals, votes, parameters, treasury.Value())
    }

    method SubmitProposal(p: Proposal, proposerBalance: int) returns (outcome: Outcome)
      modifies this
      ensures (Value(), outcome) == Submit(old(Value()), p, proposerBalance)
    {
      if proposerBalance < MIN_PROPOSAL_STAKE { return Refused; }
      if p.id in proposals { return Refused; }
      proposals := proposals[p.id := p.(status := Active)];
      votes := votes[p.id := map[]];
      return Ok;
    }

    method ApplyWeight(id: string, choice: Choice, weight: int)
      requires id in proposals
      modifies this`proposals
      ensures proposals == old(proposals)[id := Weighted(old(proposals[id]), choice, weight)]
    {
      var p := proposals[id];
      match choice
      case Yes => proposals := proposals[id := p.(yes := p.yes + weight)];
      case No => proposals := proposals[id := p.(no := p.no + weight)];
      case Abstain => proposals := proposals[id := p.(abstain := p.abstain + weight)];
    }

    method FinaliseProposal(id: string, supply: int)
      requires id in proposals
      modifies this`proposals
      ensures proposals == old(proposals)[id := Finalise(old(proposals[id]), supply)]
    {
      var p := proposals[id];
      if !p.QuorumMet(supply) {
        proposals := proposals[id := p.(status := Rejected)];
      } else if p.WouldPass(supply) {
        proposals := proposals[id := p.(status := Passed)];
      } else {
        proposals := proposals[id := p.(status := Rejected)];
      }
    }

    method CastBallot(v: Vote, publicKey: string, now: real) returns (outcome: Outcome)
      requires votes.Keys == proposals.Keys
      modifies this
      ensures (Value(), outcome) == CastVote(old(Value()), v, Authentic(verify, v, publicKey), now)
    {
      if publicKey != "" && !(v.signature != "" && verify(publicKey, v)) { return Refused; }
      if v.proposalId !in proposals { return Refused; }
      var p := proposals[v.proposalId];
      if p.status != Active { return Refused; }
      if p.IsExpired(now) {
        FinaliseProposal(v.proposalId, 0);
        return Refused;
      }
      if v.weight <= 0 { return Refused; }
      var ballots := votes[v.proposalId];
      if v.voter in ballots {
        ApplyWeight(v.proposalId, ballots[v.voter].choice, -ballots[v.voter].weight);
      }
      votes := votes[v.proposalId := ballots[v.voter := v]];
      ApplyWeight(v.proposalId, v.choice, v.weight);
      assert proposals == Record(old(Value()), v).proposals;
      return Ok;
    }

    method TallyProposal(id: string, supply: int) returns (status: Status)
      modifies this
      ensures (Value(), status) == Tally(old(Value()), id, supply)
    {
      if id !in proposals { return Draft; }
      if proposals[id].status != Active { return proposals[id].status; }
      FinaliseProposal(id, supply);
      return proposals[id].status;
    }

    method ApplyPayload(p: Proposal) returns (outcome: Outcome)
      modifies this`parameters, treasury
      ensures (Value(), outcome) == ExecutePayload(old(Value()), p)
    {
      match p.payload {
        case SetParameter(key, number) =>
          if key == "" || key !in ALLOWED_KEYS { return Refused; }
          if number.None? || number.value < 0.0 { return Refused; }
          parameters := parameters[key := number.value];
          var known := treasury.ApplyParameter(key, number.value);
          return Ok;
        case PayOut(recipient, amount, note) =>
          if recipient == "" || amount <= 0 { return Refused; }
          var ok := treasury.SpendFunds(p.id, recipient, amount, note);
          return if ok then Ok else Refused;
        case EnableFeature(flag) =>
          if flag == "" { return Refused; }
          parameters := parameters["feature_" + flag := 1.0];
          return Ok;
        case SlashStake(target, amount) => return if target == "" || amount <= 0 then Refused else Raised;
        case CustomAction => return Ok;
      }
    }

    method ExecuteProposal(id: string, now: real) returns (outcome: Outcome)
      modifies this, treasury
      ensures (Value(), outcome) == Execute(old(Value()), id, now)
    {
      if id !in proposals { return Refused; }
      var p := proposals[id];
      if p.status != Passed { return Refused; }
      outcome := ApplyPayload(p);
      if outcome == Ok {
        proposals := proposals[id := p.(status := Executed, executedAt := Some(now))];
      }
    }
  }
}
