/** Which votes count, which proposals are executed, and what their execution does. */
module GovernanceEffects {
  import opened Wrappers
  import opened Maps
  import opened Treasuries
  import opened Governance
  import opened GovernanceRuns

  // ---------------------------------------------------------------- votes

  /** Event i is a vote that finds the proposal active and in time, with some weight, and is authentic. */
  predicate Counts(events: seq<Event>, i: nat, id: string, voter: string)
  {
    && i < |events| && events[i].Votes? && events[i].vote.proposalId == id && events[i].vote.voter == voter
    && events[i].authentic && events[i].vote.weight > 0 && id in Run(events[..i]).proposals
    && var p := Run(events[..i]).proposals[id]; p.status == Active && events[i].now <= p.votingEndsAt
  }

  lemma {:induction false} CastsExactly(events: seq<Event>, i: nat, id: string, voter: string)
    ensures Casts(events, i, id, voter) <==> Counts(events, i, id, voter)
  {}

  lemma {:induction false} BallotKept(g: Engine, e: Event, id: string, voter: string)
    requires Filed(g) && voter in BallotsOf(g, id)
    ensures voter in BallotsOf(Step(g, e), id)
  {}

  /** Over every run a voter has a ballot on record if and only if some vote of theirs counted, and the
      ballot is the last one that did. */
  lemma {:induction false} BallotsExactly(events: seq<Event>, id: string, voter: string)
    ensures voter in BallotsOf(Run(events), id) <==> exists i :: Counts(events, i, id, voter)
    ensures forall i: nat :: LastToCount(events, i, id, voter) ==>
      voter in BallotsOf(Run(events), id) && BallotsOf(Run(events), id)[voter] == events[i].vote
  {
    if voter in BallotsOf(Run(events), id) {
      var i := BallotIsLatestVote(events, id, voter);
      CastsExactly(events, i, id, voter);
    }
    forall i: nat | Counts(events, i, id, voter) ensures voter in BallotsOf(Run(events), id) {
      CountedStays(events, i, id, voter);
    }
    forall i: nat | LastToCount(events, i, id, voter)
      ensures voter in BallotsOf(Run(events), id) && BallotsOf(Run(events), id)[voter] == events[i].vote
    {
      CountedStays(events, i, id, voter);
      var k := BallotIsLatestVote(events, id, voter);
      CastsExactly(events, i, id, voter);
      CastsExactly(events, k, id, voter);
    }
  }

  ghost predicate LastToCount(events: seq<Event>, i: nat, id: string, voter: string)
  {
    Counts(events, i, id, voter) && forall j: nat :: j > i ==> !Counts(events, j, id, voter)
  }

  lemma {:induction false} CountedStays(events: seq<Event>, i: nat, id: string, voter: string)
    requires Counts(events, i, id, voter)
    ensures voter in BallotsOf(Run(events), id)
    decreases |events|
  {
    var n := |events| - 1;
    RunFiled(events[..n]);
    if i < n {
      assert events[..n][..i] == events[..i];
      CountedStays(events[..n], i, id, voter);
      BallotKept(Run(events[..n]), events[n], id, voter);
    } else {
      CastsExactly(events, i, id, voter);
      BallotAfterStep(Run(events[..n]), events[n], id, voter);
    }
  }

  // ---------------------------------------------------------------- execution

  /** The payload can be carried out. */
  predicate Feasible(payload: Payload, balance: int)
  {
    match payload
    case SetParameter(key, number) =>
      && key in {"tx_fee_pct", "min_stake_to_work", "bc_per_gb_per_day", "bc_per_compute_hour",
                 "bc_per_inference_token", "block_reward", "min_bytes_per_block", "compute_reward_multiplier",
                 "storage_reward_multiplier"}
      && number.Some? && number.value >= 0.0
    case PayOut(recipient, amount, _) => recipient != "" && 0 < amount <= balance
    case EnableFeature(flag) => flag != ""
    case SlashStake(_, _) => false
    case CustomAction => true
  }

  /** The event carries a passed proposal out. */
  predicate CarriesOut(g: Engine, e: Event, id: string)
  {
    && e.Executes? && e.id == id && id in g.proposals && g.proposals[id].status == Passed
    && Feasible(g.proposals[id].payload, g.treasury.balance)
  }

  predicate CarriedOutAt(events: seq<Event>, i: nat, id: string)
  {
    i < |events| && CarriesOut(Run(events[..i]), events[i], id)
  }

  lemma {:induction false} ExecutionStep(g: Engine, e: Event, id: string)
    requires Filed(g) && id in g.proposals
    ensures id in Step(g, e).proposals
    ensures Step(g, e).proposals[id].status == Executed <==> g.proposals[id].status == Executed || CarriesOut(g, e, id)
    ensures CarriesOut(g, e, id) ==> Step(g, e).proposals[id].executedAt == Some(e.now)
  {
    StepMoves(g, e, id);
    if e.Executes? && e.id == id { ExecuteMeans(g, id, e.now); }
  }

  lemma {:induction false} ExecuteMeans(g: Engine, id: string, now: real)
    requires id in g.proposals
    ensures Execute(g, id, now).1 == Ok <==> CarriesOut(g, Executes(id, now), id)
    ensures Execute(g, id, now).1 == Ok ==>
      && id in Execute(g, id, now).0.proposals && Execute(g, id, now).0.proposals[id].status == Executed
      && Execute(g, id, now).0.proposals[id].executedAt == Some(now)
    ensures Execute(g, id, now).1 != Ok ==> Execute(g, id, now).0 == g
  {}

  /** A slash is never carried out: a valid one raises, because no engine has a chain to slash on, and an
      invalid one is refused, as everything else is that cannot be carried out. */
  lemma {:induction false} Unexecuted(g: Engine, id: string, now: real)
    requires !CarriesOut(g, Executes(id, now), id)
    ensures
      var slashes := id in g.proposals && g.proposals[id].status == Passed && g.proposals[id].payload.SlashStake?;
      var raises := slashes && g.proposals[id].payload.target != "" && g.proposals[id].payload.amount > 0;
      Execute(g, id, now) == (g, if raises then Raised else Refused)
  {}

  /** Over every run a proposal is executed if and only if some event carried it out. */
  lemma {:induction false} ExecutedExactly(events: seq<Event>, id: string)
    ensures (id in Run(events).proposals && Run(events).proposals[id].status == Executed) <==>
            exists i :: CarriedOutAt(events, i, id)
  {
    if events != [] {
      var n := |events| - 1;
      ExecutedExactly(events[..n], id);
      RunFiled(events[..n]);
      if id in Run(events[..n]).proposals {
        ExecutionStep(Run(events[..n]), events[n], id);
      } else {
        FilingStep(Run(events[..n]), events[n], id);
        if id in Run(events).proposals { NewIsActive(Run(events[..n]), events[n], id); }
      }
      CarriedOutOneMore(events, n, id);
    }
  }

  lemma {:induction false} CarriedOutOneMore(events: seq<Event>, n: nat, id: string)
    requires n == |events| - 1
    ensures (exists i :: CarriedOutAt(events, i, id)) <==>
            (exists i :: CarriedOutAt(events[..n], i, id)) || CarriesOut(Run(events[..n]), events[n], id)
  {
    forall i: nat | i < n ensures CarriedOutAt(events[..n], i, id) == CarriedOutAt(events, i, id) {
      assert events[..n][..i] == events[..i];
    }
    if CarriesOut(Run(events[..n]), events[n], id) { assert CarriedOutAt(events, n, id); }
  }

  // ---------------------------------------------------------------- effects

  /** The parameter a payload sets, if any, and its value. */
  function Setting(payload: Payload): Option<(string, real)>
  {
    match payload
    case SetParameter(key, number) => if number.Some? then Some((key, number.value)) else None
    case EnableFeature(flag) => Some(("feature_" + flag, 1.0))
    case _ => None
  }

  /** The fee rates of the treasury. */
  const FEES := {"tx_fee_pct", "compute_fee_pct", "storage_fee_pct", "infer_fee_pct", "render_fee_pct"}

  /** Everything an event does besides filing, voting and closing: a proposal that is carried out sets its
      parameter, and the fee rate of the same name, or pays its recipient; income is booked; nothing else
      changes a parameter, a rate or the treasury. */
  lemma {:induction false} EffectExactly(g: Engine, e: Event)
    requires Filed(g)
    ensures
      var g', t, t' := Step(g, e), g.treasury, Step(g, e).treasury;
      if e.Executes? && CarriesOut(g, e, e.id) then
        var payload := g.proposals[e.id].payload;
        var setting := Setting(payload);
        && g'.parameters == (if setting.Some? then g.parameters[setting.value.0 := setting.value.1] else g.parameters)
        && t'.rates == (if payload.SetParameter? && setting.value.0 in FEES
                        then t.rates[setting.value.0 := setting.value.1] else t.rates)
        && t'.income == t.income
        && t'.spending == t.spending + (if payload.PayOut?
                                        then [Spend(e.id, payload.recipient, payload.amount, payload.note)] else [])
        && t'.balance == t.balance - (if payload.PayOut? then payload.amount else 0)
      else
        && g'.parameters == g.parameters && t'.rates == t.rates && t'.spending == t.spending
        && t'.income == t.income + (if e.Collects? && e.entry.amount > 0 then [e.entry] else [])
        && t'.balance == t.balance + (if e.Collects? && e.entry.amount > 0 then e.entry.amount else 0)
  {
    if e.Executes? && e.id in g.proposals { ExecuteMeans(g, e.id, e.now); }
  }

  /** Event i set the parameter to this value. */
  predicate SetAt(events: seq<Event>, i: nat, key: string, value: real)
  {
    && i < |events| && events[i].Executes? && CarriedOutAt(events, i, events[i].id)
    && Setting(Run(events[..i]).proposals[events[i].id].payload) == Some((key, value))
  }

  ghost predicate NotSetAfter(events: seq<Event>, i: int, key: string)
  {
    forall j: nat, value :: j > i ==> !SetAt(events, j, key, value)
  }

  /** Over every run a parameter has the value it was set to last, and its initial one if it never was. */
  lemma {:induction false} LatestSettingStands(events: seq<Event>, i: int, key: string, value: real)
    requires NotSetAfter(events, i, key)
    requires i < 0 || SetAt(events, i, key, value)
    ensures i >= 0 ==> key in Run(events).parameters && Run(events).parameters[key] == value
    ensures i < 0 ==> (key in Run(events).parameters <==> key in DEFAULT_PARAMETERS)
    ensures i < 0 && key in DEFAULT_PARAMETERS ==> Run(events).parameters[key] == DEFAULT_PARAMETERS[key]
  {
    if events != [] {
      var n := |events| - 1;
      var g, e := Run(events[..n]), events[n];
      RunFiled(events[..n]);
      EffectExactly(g, e);
      if i < n {
        NotSetBefore(events, n, i, key);
        if i >= 0 { SetBefore(events, n, i, key, value); }
        LatestSettingStands(events[..n], i, key, value);
        if e.Executes? && CarriesOut(g, e, e.id) && Setting(g.proposals[e.id].payload).Some? {
          var setting := Setting(g.proposals[e.id].payload).value;
          assert SetAt(events, n, setting.0, setting.1);
        }
      }
    }
  }

  lemma {:induction false} SetBefore(events: seq<Event>, n: nat, i: nat, key: string, value: real)
    requires i < n <= |events|
    ensures SetAt(events[..n], i, key, value) == SetAt(events, i, key, value)
  {
    assert events[..n][..i] == events[..i];
  }

  lemma {:induction false} NotSetBefore(events: seq<Event>, n: nat, i: int, key: string)
    requires n <= |events| && NotSetAfter(events, i, key)
    ensures NotSetAfter(events[..n], i, key)
  {
    forall j: nat, value | j > i ensures !SetAt(events[..n], j, key, value) {
      if j < n { SetBefore(events, n, j, key, value); }
    }
  }
}
