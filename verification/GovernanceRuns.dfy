/** What holds of every proposal and of the treasury after any run of the DAO. */
module GovernanceRuns {
  import opened Wrappers
  import opened Maps
  import opened Treasuries
  import opened Governance

  // ---------------------------------------------------------------- one step

  ghost predicate Filed(g: Engine)
  {
    g.votes.Keys == g.proposals.Keys && forall id :: id in g.proposals ==> g.proposals[id].id == id
  }

  predicate SameTally(p: Proposal, q: Proposal)
  {
    p.yes == q.yes && p.no == q.no && p.abstain == q.abstain
  }

  /** Active to Passed or Rejected, Passed to Executed, and no way back. */
  predicate Forward(s: Status, t: Status)
  {
    s == t || (s == Active && (t == Passed || t == Rejected || t == Executed)) || (s == Passed && t == Executed)
  }

  /** The event is a tally that the active proposal passes. */
  predicate Passes(p: Proposal, e: Event)
  {
    p.status == Active && e.Tallies? && e.id == p.id && p.WouldPass(e.supply)
  }

  /** The event is a tally that the active proposal fails, or an authentic vote after its deadline. */
  predicate Rejects(p: Proposal, e: Event)
  {
    && p.status == Active
    && ((e.Tallies? && e.id == p.id && !p.WouldPass(e.supply))
        || (e.Votes? && e.vote.proposalId == p.id && e.authentic && p.IsExpired(e.now)))
  }

  /** What one event does to one proposal. */
  predicate Moves(p: Proposal, p': Proposal, e: Event)
  {
    && p'.id == p.id && p'.payload == p.payload && p'.votingEndsAt == p.votingEndsAt
    && match p.status
       case Active =>
         if Passes(p, e) then p'.status == Passed && SameTally(p, p')
         else if Rejects(p, e) then p'.status == Rejected && SameTally(p, p')
         else p'.status == Active
       case Passed =>
         SameTally(p, p') && (p'.status == Passed || (p'.status == Executed && e.Executes? && e.id == p.id))
       case _ => p' == p
  }

  lemma {:induction false} StepMoves(g: Engine, e: Event, id: string)
    requires Filed(g) && id in g.proposals
    ensures id in Step(g, e).proposals && Moves(g.proposals[id], Step(g, e).proposals[id], e)
  {
    match e
    case Votes(_, _, _) => VoteMoves(g, e, id);
    case Executes(_, _) => ExecuteMoves(g, e, id);
    case _ =>
  }

  lemma {:induction false} VoteMoves(g: Engine, e: Event, id: string)
    requires Filed(g) && id in g.proposals && e.Votes?
    ensures id in Step(g, e).proposals && Moves(g.proposals[id], Step(g, e).proposals[id], e)
  {}

  lemma {:induction false} ExecuteMoves(g: Engine, e: Event, id: string)
    requires Filed(g) && id in g.proposals && e.Executes?
    ensures id in Step(g, e).proposals && Moves(g.proposals[id], Step(g, e).proposals[id], e)
  {}

  lemma {:induction false} StepKeepsFiled(g: Engine, e: Event)
    requires Filed(g)
    ensures Filed(Step(g, e))
  {}

  lemma {:induction false} RunFiled(events: seq<Event>)
    ensures Filed(Run(events))
  {
    if events != [] {
      RunFiled(events[..|events| - 1]);
      StepKeepsFiled(Run(events[..|events| - 1]), events[|events| - 1]);
    }
  }

  // ---------------------------------------------------------------- statuses

  /** Over any run a proposal keeps its payload and its status only moves forward; once voting is closed
      its tally is final. */
  lemma {:induction false} StatusMovesForward(events: seq<Event>, later: seq<Event>, id: string)
    requires id in Run(events).proposals
    ensures
      var g, g' := Run(events), Run(events + later);
      && id in g'.proposals && g'.proposals[id].payload == g.proposals[id].payload
      && g'.proposals[id].votingEndsAt == g.proposals[id].votingEndsAt
      && Forward(g.proposals[id].status, g'.proposals[id].status)
      && (g.proposals[id].status != Active ==> SameTally(g.proposals[id], g'.proposals[id]))
    decreases |later|
  {
    if later == [] {
      assert events + later == events;
    } else {
      var all, init := events + later, later[..|later| - 1];
      assert all[..|all| - 1] == events + init;
      StatusMovesForward(events, init, id);
      RunFiled(events + init);
      StepMoves(Run(events + init), all[|all| - 1], id);
      RunStatuses(events, id);
    }
  }

  /** A filed proposal is never a draft and never expires. */
  lemma {:induction false} RunStatuses(events: seq<Event>, id: string)
    requires id in Run(events).proposals
    ensures Run(events).proposals[id].status in {Active, Passed, Rejected, Executed}
  {
    if events != [] {
      var before, e := events[..|events| - 1], events[|events| - 1];
      if id in Run(before).proposals {
        RunStatuses(before, id);
        RunFiled(before);
        StepMoves(Run(before), e, id);
      }
    }
  }

  /** Event i found the proposal active and passed it. */
  predicate PassesAt(events: seq<Event>, i: nat, id: string)
  {
    && i < |events| && id in Run(events[..i]).proposals
    && Passes(Run(events[..i]).proposals[id], events[i])
  }

  predicate RejectsAt(events: seq<Event>, i: nat, id: string)
  {
    && i < |events| && id in Run(events[..i]).proposals
    && Rejects(Run(events[..i]).proposals[id], events[i])
  }

  /** The votes at event i are the votes at the end. */
  predicate FinalAt(events: seq<Event>, i: nat, id: string)
  {
    && i < |events| && id in Run(events[..i]).proposals && id in Run(events).proposals
    && SameTally(Run(events[..i]).proposals[id], Run(events).proposals[id])
  }

  /** Every passed or executed proposal was active at a tally, and by the supply of that tally its final
      votes meet the quorum of 10% and the 51% of yes votes. */
  lemma {:induction false} PassedMeansMajority(events: seq<Event>, id: string) returns (i: nat)
    requires id in Run(events).proposals && Run(events).proposals[id].status in {Passed, Executed}
    ensures PassesAt(events, i, id) && FinalAt(events, i, id)
  {
    var before, e := events[..|events| - 1], events[|events| - 1];
    var g := Run(before);
    RunFiled(before);
    i := |before|;
    if id !in g.proposals {
      NewIsActive(g, e, id);
    } else {
      StepMoves(g, e, id);
      if g.proposals[id].status != Active {
        i := PassedMeansMajority(before, id);
        assert events[..i] == before[..i];
      }
    }
  }

  /** Every rejected proposal was active at a tally that it failed with its final votes, or at an authentic
      vote after its deadline. */
  lemma {:induction false} RejectedMeans(events: seq<Event>, id: string) returns (i: nat)
    requires id in Run(events).proposals && Run(events).proposals[id].status == Rejected
    ensures RejectsAt(events, i, id) && FinalAt(events, i, id)
  {
    var before, e := events[..|events| - 1], events[|events| - 1];
    var g := Run(before);
    RunFiled(before);
    i := |before|;
    if id !in g.proposals {
      NewIsActive(g, e, id);
    } else {
      StepMoves(g, e, id);
      if g.proposals[id].status != Active {
        i := RejectedMeans(before, id);
        assert events[..i] == before[..i];
      }
    }
  }

  /** The verdict of event i stands whatever follows. */
  lemma {:induction false} VerdictStands(events: seq<Event>, i: nat, id: string)
    requires PassesAt(events, i, id) || RejectsAt(events, i, id)
    ensures id in Run(events).proposals
    ensures
      var status := Run(events).proposals[id].status;
      if PassesAt(events, i, id) then status in {Passed, Executed} else status == Rejected
  {
    var first, rest := events[..i + 1], events[i + 1..];
    assert first[..|first| - 1] == events[..i] && first[|first| - 1] == events[i] && first + rest == events;
    RunFiled(events[..i]);
    StepMoves(Run(events[..i]), events[i], id);
    StatusMovesForward(first, rest, id);
  }

  /** Exactly when a proposal passes and exactly when it is rejected, over every run. */
  lemma {:induction false} DecidedExactly(events: seq<Event>, id: string)
    requires id in Run(events).proposals
    ensures
      var status := Run(events).proposals[id].status;
      && (status in {Passed, Executed} <==> exists i :: PassesAt(events, i, id))
      && (status == Rejected <==> exists i :: RejectsAt(events, i, id))
  {
    var status := Run(events).proposals[id].status;
    if status in {Passed, Executed} { var i := PassedMeansMajority(events, id); }
    if status == Rejected { var i := RejectedMeans(events, id); }
    forall i | PassesAt(events, i, id) ensures status in {Passed, Executed} { VerdictStands(events, i, id); }
    forall i | RejectsAt(events, i, id) ensures status == Rejected { VerdictStands(events, i, id); }
  }

  /** An authentic vote that finds an active proposal after its deadline rejects it for good, even where a
      tally by any supply would have passed it. */
  lemma {:induction false} LateVoteRejects(events: seq<Event>, i: nat, id: string)
    requires i < |events| && id in Run(events[..i]).proposals
    requires
      var p := Run(events[..i]).proposals[id];
      && p.status == Active && events[i].Votes? && events[i].vote.proposalId == id && events[i].authentic
      && p.IsExpired(events[i].now)
    ensures id in Run(events).proposals && Run(events).proposals[id].status == Rejected
  {
    RunFiled(events[..i]);
    VerdictStands(events, i, id);
  }

  lemma {:induction false} NewIsActive(g: Engine, e: Event, id: string)
    requires Filed(g) && id !in g.proposals && id in Step(g, e).proposals
    ensures Step(g, e).proposals[id].status == Active && e.Submits? && e.proposal.id == id
    ensures SameTally(Step(g, e).proposals[id], e.proposal) && Step(g, e).votes[id] == map[]
  {}

  /** So the order of two calls decides: once the voting period is over, a tally passes a proposal that has
      its majority, and a late vote just before that tally rejects it. */
  lemma {:induction false} LateVoteReversesVerdict(events: seq<Event>, id: string, v: Vote, now: real, supply: int)
    requires id in Run(events).proposals && v.proposalId == id
    requires
      var p := Run(events).proposals[id];
      p.status == Active && p.IsExpired(now) && p.WouldPass(supply)
    ensures
      var tallied := Run(events + [Tallies(id, supply)]);
      var late := Run(events + [Votes(v, true, now), Tallies(id, supply)]);
      && id in tallied.proposals && tallied.proposals[id].status == Passed
      && id in late.proposals && late.proposals[id].status == Rejected
  {
    var n, tally, both := |events|, events + [Tallies(id, supply)], events + [Votes(v, true, now), Tallies(id, supply)];
    assert tally[..n] == events && both[..n] == events;
    RunFiled(events);
    StepMoves(Run(events), Tallies(id, supply), id);
    LateVoteRejects(both, n, id);
  }

  const CONTESTED: Proposal := Proposal("p", CustomAction, 1.0, Active, None, 0, 0, 0)
  const IN_FAVOUR: Vote := Vote("p", "v", Yes, 1, "")

  /** A run that reaches such a state: one proposal with all votes in favour, its period over. */
  lemma {:induction false} MajorityAwaitsTally()
    ensures
      var g := Run([Submits(CONTESTED, MIN_PROPOSAL_STAKE), Votes(IN_FAVOUR, true, 0.0)]);
      && "p" in g.proposals && g.proposals["p"].status == Active
      && g.proposals["p"] == CONTESTED.(yes := 1)
      && g.proposals["p"].IsExpired(2.0) && g.proposals["p"].WouldPass(1)
  {
    var submit, vote := Submits(CONTESTED, MIN_PROPOSAL_STAKE), Votes(IN_FAVOUR, true, 0.0);
    assert [submit, vote][..1] == [submit] && [submit][..0] == [];
    assert Run([submit]) == Submit(NEW_ENGINE, CONTESTED, MIN_PROPOSAL_STAKE).0;
    VoteInFavour(Run([submit]));
  }

  lemma {:induction false} VoteInFavour(g: Engine)
    requires "p" in g.proposals && g.proposals["p"] == CONTESTED && BallotsOf(g, "p") == map[]
    ensures CastVote(g, IN_FAVOUR, true, 0.0).0.proposals == g.proposals["p" := CONTESTED.(yes := 1)]
  {}

  // ---------------------------------------------------------------- thresholds

  /** What it takes to pass, in whole votes: a tenth of the supply takes part, and of a hundred votes for or
      against at least 51 are in favour. */
  lemma {:induction false} PassingMeans(p: Proposal, supply: int)
    ensures p.WouldPass(supply) <==>
      && supply > 0 && 10 * (p.yes + p.no + p.abstain) >= supply
      && p.yes + p.no > 0 && 100 * p.yes >= 51 * (p.yes + p.no)
  {
    if supply > 0 { ShareAtLeast(p.TotalVotes(), supply, 1, 10); }
    if p.yes + p.no > 0 { ShareAtLeast(p.yes, p.yes + p.no, 51, 100); }
  }

  lemma {:induction false} ShareAtLeast(part: int, whole: int, n: nat, d: nat)
    requires whole > 0 && d > 0
    ensures part as real / whole as real >= n as real / d as real <==> d * part >= n * whole
  {
    var p, w, x, y := part as real, whole as real, n as real, d as real;
    assert p / w * w == p && x / y * y == x;
    CrossMultiply(p / w, x / y, w, y);
    assert (d * part) as real == y * p && (n * whole) as real == x * w;
  }

  lemma {:induction false} CrossMultiply(a: real, b: real, w: real, y: real)
    requires w > 0.0 && y > 0.0
    ensures a >= b <==> y * (a * w) >= (b * y) * w
  {
    assert y * (a * w) == a * (w * y) && (b * y) * w == b * (w * y) && w * y > 0.0;
    if a >= b { assert (a - b) * (w * y) >= 0.0; }
    if a < b { assert (b - a) * (w * y) > 0.0; }
  }

  /** Event i filed the proposal: the first one with this id, by somebody who held ten coins. */
  predicate FiledBy(events: seq<Event>, i: nat, id: string)
  {
    && i < |events| && events[i].Submits? && events[i].proposal.id == id && events[i].balance >= 1_000_000_000
    && id !in Run(events[..i]).proposals
  }

  /** A proposal is on file if and only if somebody with ten coins has submitted it, and what is on file is
      what was submitted first: its payload and its deadline never change. */
  lemma {:induction false} FiledExactly(events: seq<Event>, id: string)
    ensures id in Run(events).proposals <==> exists i :: FiledBy(events, i, id)
    ensures forall i :: FiledBy(events, i, id) ==> KeepsTerms(events, i, id)
  {
    if id in Run(events).proposals { var i := FilingEvent(events, id); }
    forall i | FiledBy(events, i, id) ensures KeepsTerms(events, i, id) { FiledStays(events, i, id); }
  }

  predicate KeepsTerms(events: seq<Event>, i: nat, id: string)
  {
    && i < |events| && events[i].Submits? && id in Run(events).proposals
    && Run(events).proposals[id].payload == events[i].proposal.payload
    && Run(events).proposals[id].votingEndsAt == events[i].proposal.votingEndsAt
  }

  lemma {:induction false} FiledStays(events: seq<Event>, i: nat, id: string)
    requires FiledBy(events, i, id)
    ensures KeepsTerms(events, i, id)
  {
    var first, rest := events[..i + 1], events[i + 1..];
    assert first[..i] == events[..i] && first + rest == events;
    FilingStep(Run(events[..i]), events[i], id);
    StatusMovesForward(first, rest, id);
  }

  lemma {:induction false} FilingEvent(events: seq<Event>, id: string) returns (i: nat)
    requires id in Run(events).proposals
    ensures FiledBy(events, i, id)
  {
    var n := |events| - 1;
    if id in Run(events[..n]).proposals {
      i := FilingEvent(events[..n], id);
      FiledBefore(events, n, i, id);
    } else {
      FilingStep(Run(events[..n]), events[n], id);
      i := n;
    }
  }

  lemma {:induction false} FiledBefore(events: seq<Event>, n: nat, i: nat, id: string)
    requires i < n <= |events|
    ensures FiledBy(events[..n], i, id) == FiledBy(events, i, id)
  {
    assert events[..n][..i] == events[..i];
  }

  lemma {:induction false} FilingStep(g: Engine, e: Event, id: string)
    requires id !in g.proposals
    ensures id in Step(g, e).proposals <==> e.Submits? && e.proposal.id == id && e.balance >= 1_000_000_000
    ensures id in Step(g, e).proposals ==>
      && Step(g, e).proposals[id].payload == e.proposal.payload
      && Step(g, e).proposals[id].votingEndsAt == e.proposal.votingEndsAt
  {}

  // ---------------------------------------------------------------- early tallies

  function WithDeadline(g: Engine, id: string, end: real): Engine
    requires id in g.proposals
  {
    g.(proposals := g.proposals[id := g.proposals[id].(votingEndsAt := end)])
  }

  /** A tally does not ask for the end of the voting period: whatever it is, the verdict is the same. */
  lemma {:induction false} TallyIgnoresDeadline(g: Engine, id: string, end: real, supply: int)
    requires id in g.proposals
    ensures
      var (after, status) := Tally(g, id, supply);
      id in after.proposals && Tally(WithDeadline(g, id, end), id, supply) == (WithDeadline(after, id, end), status)
  {
    var after := Tally(g, id, supply).0;
    assert Tally(WithDeadline(g, id, end), id, supply).0.proposals == WithDeadline(after, id, end).proposals;
  }

  /** A run in which a proposal is tallied, passed and executed while its voting period still lasts. */
  lemma {:induction false} EarlyTallyPasses()
    ensures
      var vote := [Submits(CONTESTED, MIN_PROPOSAL_STAKE), Votes(IN_FAVOUR, true, 0.0)];
      var g, g' := Run(vote + [Tallies("p", 1)]), Run(vote + [Tallies("p", 1), Executes("p", 0.5)]);
      && "p" in g.proposals && g.proposals["p"].status == Passed
      && "p" in g'.proposals && g'.proposals["p"].executedAt == Some(0.5) && !g'.proposals["p"].IsExpired(0.5)
  {
    var vote := [Submits(CONTESTED, MIN_PROPOSAL_STAKE), Votes(IN_FAVOUR, true, 0.0)];
    var tallied, executed := vote + [Tallies("p", 1)], vote + [Tallies("p", 1), Executes("p", 0.5)];
    assert tallied[..2] == vote && executed[..3] == tallied;
    MajorityAwaitsTally();
    RunFiled(vote);
    StepMoves(Run(vote), Tallies("p", 1), "p");
    ExecuteCustom(Run(tallied), "p", 0.5);
  }

  lemma {:induction false} ExecuteCustom(g: Engine, id: string, now: real)
    requires id in g.proposals && g.proposals[id].status == Passed && g.proposals[id].payload == CustomAction
    ensures Execute(g, id, now).0.proposals[id].executedAt == Some(now)
    ensures Execute(g, id, now).0.proposals[id].votingEndsAt == g.proposals[id].votingEndsAt
  {}

  // ---------------------------------------------------------------- tallies

  function Weights(ballots: map<string, Vote>, c: Choice): map<string, int>
  {
    map voter | voter in ballots :: if ballots[voter].choice == c then ballots[voter].weight else 0
  }

  ghost function WeightOf(ballots: map<string, Vote>, c: Choice): int
  {
    Total(Weights(ballots, c))
  }

  ghost predicate Counted(p: Proposal, ballots: map<string, Vote>)
  {
    p.yes == WeightOf(ballots, Yes) && p.no == WeightOf(ballots, No) && p.abstain == WeightOf(ballots, Abstain)
  }

  lemma {:induction false} OneBallot(ballots: map<string, Vote>, v: Vote, c: Choice)
    ensures WeightOf(ballots[v.voter := v], c) == WeightOf(ballots, c)
      - (if v.voter in ballots && ballots[v.voter].choice == c then ballots[v.voter].weight else 0)
      + (if v.choice == c then v.weight else 0)
  {
    var weight := if v.choice == c then v.weight else 0;
    TotalUpdate(Weights(ballots, c), v.voter, weight);
    assert Weights(ballots[v.voter := v], c) == Weights(ballots, c)[v.voter := weight];
  }

  lemma {:induction false} RecordKeepsCount(g: Engine, v: Vote)
    requires v.proposalId in g.proposals && Counted(g.proposals[v.proposalId], BallotsOf(g, v.proposalId))
    ensures Counted(Record(g, v).proposals[v.proposalId], BallotsOf(Record(g, v), v.proposalId))
  {
    var ballots := BallotsOf(g, v.proposalId);
    OneBallot(ballots, v, Yes);
    OneBallot(ballots, v, No);
    OneBallot(ballots, v, Abstain);
  }

  /** Proposals start without votes. */
  predicate Unvoted(e: Event)
  {
    e.Submits? ==> e.proposal.yes == e.proposal.no == e.proposal.abstain == 0
  }

  lemma {:induction false} StepKeepsCount(g: Engine, e: Event, id: string)
    requires Filed(g) && Unvoted(e) && id in Step(g, e).proposals
    requires id in g.proposals ==> Counted(g.proposals[id], BallotsOf(g, id))
    ensures Counted(Step(g, e).proposals[id], BallotsOf(Step(g, e), id))
  {
    if id !in g.proposals {
      NewIsActive(g, e, id);
      NoBallots();
    } else if e.Votes? && e.vote.proposalId == id && CastVote(g, e.vote, e.authentic, e.now).1 == Ok {
      RecordKeepsCount(g, e.vote);
    } else {
      BallotsUntouched(g, e, id);
    }
  }

  lemma {:induction false} NoBallots()
    ensures forall c :: WeightOf(map[], c) == 0
  {}

  lemma {:induction false} BallotsUntouched(g: Engine, e: Event, id: string)
    requires Filed(g) && id in g.proposals
    requires !(e.Votes? && e.vote.proposalId == id && CastVote(g, e.vote, e.authentic, e.now).1 == Ok)
    ensures id in Step(g, e).proposals && SameTally(Step(g, e).proposals[id], g.proposals[id])
    ensures BallotsOf(Step(g, e), id) == BallotsOf(g, id)
  {}

  /** Each tally is the weight of the ballots on record: the latest vote of every voter, once. */
  lemma {:induction false} TalliesAreBallots(events: seq<Event>, id: string)
    requires forall e :: e in events ==> Unvoted(e)
    requires id in Run(events).proposals
    ensures Counted(Run(events).proposals[id], BallotsOf(Run(events), id))
  {
    if events != [] {
      var before, e := events[..|events| - 1], events[|events| - 1];
      RunFiled(before);
      if id in Run(before).proposals { TalliesAreBallots(before, id); }
      StepKeepsCount(Run(before), e, id);
    }
  }

  /** The i-th event is a vote of this voter that was accepted. */
  predicate Casts(events: seq<Event>, i: nat, id: string, voter: string)
  {
    && i < |events| && events[i].Votes? && events[i].vote.proposalId == id && events[i].vote.voter == voter
    && CastVote(Run(events[..i]), events[i].vote, events[i].authentic, events[i].now).1 == Ok
  }

  lemma {:induction false} BallotAfterStep(g: Engine, e: Event, id: string, voter: string)
    requires Filed(g)
    ensures
      var cast := e.Votes? && e.vote.proposalId == id && e.vote.voter == voter
                  && CastVote(g, e.vote, e.authentic, e.now).1 == Ok;
      var before, after := BallotsOf(g, id), BallotsOf(Step(g, e), id);
      if cast then voter in after && after[voter] == e.vote && e.authentic && e.vote.weight > 0
      else voter in after ==> voter in before && after[voter] == before[voter]
  {}

  /** The ballot on record is the latest accepted vote of its voter: authentic, in time, of positive
      weight, and not followed by another one. */
  lemma {:induction false} BallotIsLatestVote(events: seq<Event>, id: string, voter: string) returns (i: nat)
    requires voter in BallotsOf(Run(events), id)
    ensures Casts(events, i, id, voter) && events[i].vote == BallotsOf(Run(events), id)[voter]
    ensures events[i].authentic && events[i].vote.weight > 0
    ensures forall j :: i < j < |events| ==> !Casts(events, j, id, voter)
  {
    var n := |events| - 1;
    var before, e := events[..n], events[n];
    RunFiled(before);
    BallotAfterStep(Run(before), e, id, voter);
    if Casts(events, n, id, voter) {
      i := n;
    } else {
      i := BallotIsLatestVote(before, id, voter);
      CastsBefore(events, n, i, id, voter);
      NoneAfter(events, n, i, id, voter);
    }
  }

  lemma {:induction false} NoneAfter(events: seq<Event>, n: nat, i: nat, id: string, voter: string)
    requires n == |events| - 1 && !Casts(events, n, id, voter)
    requires forall j :: i < j < n ==> !Casts(events[..n], j, id, voter)
    ensures forall j :: i < j < |events| ==> !Casts(events, j, id, voter)
  {
    forall j | i < j < n ensures !Casts(events, j, id, voter) { CastsBefore(events, n, j, id, voter); }
  }

  lemma {:induction false} CastsBefore(events: seq<Event>, n: nat, i: nat, id: string, voter: string)
    requires i < n <= |events|
    ensures Casts(events[..n], i, id, voter) == Casts(events, i, id, voter)
  {
    assert events[..n][..i] == events[..i];
  }

  // ---------------------------------------------------------------- the treasury

  ghost predicate OncePerProposal(spending: seq<Spend>)
  {
    forall i, j :: 0 <= i < j < |spending| ==> spending[i].proposalId != spending[j].proposalId
  }

  predicate IsPayOut(p: Proposal)
  {
    p.status == Executed && p.payload.PayOut?
  }

  /** A spend is what an executed proposal asked for. */
  predicate Authorised(g: Engine, s: Spend)
  {
    && s.proposalId in g.proposals && IsPayOut(g.proposals[s.proposalId]) && s.amount > 0
    && g.proposals[s.proposalId].payload == PayOut(s.recipient, s.amount, s.note)
  }

  ghost predicate Paid(spending: seq<Spend>, id: string)
  {
    exists i :: 0 <= i < |spending| && spending[i].proposalId == id
  }

  ghost predicate PaidOnce(g: Engine)
  {
    && OncePerProposal(g.treasury.spending)
    && (forall i :: 0 <= i < |g.treasury.spending| ==> Authorised(g, g.treasury.spending[i]))
    && (forall id :: id in g.proposals && IsPayOut(g.proposals[id]) ==> Paid(g.treasury.spending, id))
  }

  lemma {:induction false} PayOutKeepsPaidOnce(g: Engine, e: Event)
    requires Filed(g) && PaidOnce(g) && e.Executes? && Execute(g, e.id, e.now).1 == Ok
    requires g.proposals[e.id].payload.PayOut?
    ensures PaidOnce(Step(g, e))
  {
    var g' := Step(g, e);
    var old', new' := g.treasury.spending, g'.treasury.spending;
    assert !IsPayOut(g.proposals[e.id]);
    forall i | 0 <= i < |new'| ensures Authorised(g', new'[i]) && (i < |old'| ==> new'[i].proposalId != e.id) {
      if i < |old'| { assert Authorised(g, old'[i]); }
    }
    forall id | id in g'.proposals && IsPayOut(g'.proposals[id]) ensures Paid(new', id) {
      if id == e.id {
        assert new'[|old'|].proposalId == id;
      } else {
        assert Paid(old', id);
        var i :| 0 <= i < |old'| && old'[i].proposalId == id;
        assert new'[i].proposalId == id;
      }
    }
  }

  lemma {:induction false} OthersKeepPaidOnce(g: Engine, e: Event)
    requires Filed(g) && PaidOnce(g) && (forall id :: id in g.proposals ==> g.proposals[id].status != Draft)
    requires !(e.Executes? && Execute(g, e.id, e.now).1 == Ok && g.proposals[e.id].payload.PayOut?)
    ensures PaidOnce(Step(g, e))
  {
    var g' := Step(g, e);
    assert g'.treasury.spending == g.treasury.spending;
    forall i | 0 <= i < |g.treasury.spending| ensures Authorised(g', g.treasury.spending[i]) {
      var s := g.treasury.spending[i];
      assert Authorised(g, s);
      StepMoves(g, e, s.proposalId);
    }
    forall id | id in g'.proposals && IsPayOut(g'.proposals[id]) ensures Paid(g.treasury.spending, id) {
      if id in g.proposals { StepMoves(g, e, id); } else { NewIsActive(g, e, id); }
      assert id in g.proposals && IsPayOut(g.proposals[id]);
    }
  }

  /** After every run the balance is what came in less what was spent and never negative; an executed
      pay-out was paid exactly once, as it was voted, and nothing else was ever paid. */
  lemma {:induction false} TreasuryIsSafe(events: seq<Event>)
    ensures Balanced(Run(events).treasury) && PaidOnce(Run(events))
  {
    if events != [] {
      var before, e := events[..|events| - 1], events[|events| - 1];
      TreasuryIsSafe(before);
      RunFiled(before);
      var g := Run(before);
      StepKeepsBalanced(g, e);
      if e.Executes? && Execute(g, e.id, e.now).1 == Ok && g.proposals[e.id].payload.PayOut? {
        PayOutKeepsPaidOnce(g, e);
      } else {
        forall id | id in g.proposals ensures g.proposals[id].status != Draft { RunStatuses(before, id); }
        OthersKeepPaidOnce(g, e);
      }
    }
  }

  lemma {:induction false} StepKeepsBalanced(g: Engine, e: Event)
    requires Balanced(g.treasury)
    ensures Balanced(Step(g, e).treasury)
  {}

  // ---------------------------------------------------------------- parameters

  /** An executed proposal that gave a parameter this value. */
  predicate Sets(p: Proposal, key: string, value: real)
  {
    && p.status == Executed
    && match p.payload
       case SetParameter(k, number) => k == key && k in ALLOWED_KEYS && number == Some(value) && value >= 0.0
       case EnableFeature(flag) => flag != "" && key == "feature_" + flag && value == 1.0
       case _ => false
  }

  ghost predicate Voted(g: Engine, key: string)
    requires key in g.parameters
  {
    exists id :: id in g.proposals && Sets(g.proposals[id], key, g.parameters[key])
  }

  /** Only executing a proposal changes a parameter, and that proposal then shows the new value. */
  lemma {:induction false} StepSetsParameters(g: Engine, e: Event, key: string)
    requires Filed(g) && key in Step(g, e).parameters
    ensures
      var g' := Step(g, e);
      || (key in g.parameters && g'.parameters[key] == g.parameters[key])
      || (e.Executes? && e.id in g'.proposals && Sets(g'.proposals[e.id], key, g'.parameters[key]))
  {}

  /** After every run each parameter has its initial value or the one an executed proposal gave it. */
  lemma {:induction false} ParametersAreVoted(events: seq<Event>, key: string)
    requires key in Run(events).parameters
    ensures
      var g := Run(events);
      (key in DEFAULT_PARAMETERS && g.parameters[key] == DEFAULT_PARAMETERS[key]) || Voted(g, key)
  {
    if events != [] {
      var before, e := events[..|events| - 1], events[|events| - 1];
      var g, g' := Run(before), Run(events);
      RunFiled(before);
      StepSetsParameters(g, e, key);
      if key in g.parameters && g'.parameters[key] == g.parameters[key] {
        ParametersAreVoted(before, key);
        if Voted(g, key) {
          var id :| id in g.proposals && Sets(g.proposals[id], key, g.parameters[key]);
          StepMoves(g, e, id);
          assert Sets(g'.proposals[id], key, g'.parameters[key]);
        }
      } else {
        assert Sets(g'.proposals[e.id], key, g'.parameters[key]);
      }
    }
  }
}
