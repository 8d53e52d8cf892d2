/**
 Sequences of instructions submitted one after another. Each instruction
 either commits in full or leaves the ledger untouched, so a run is the fold
 of `Apply` over the sequence. The lemmas here are about whole runs: where
 the lamports go, how `total_donated` tracks donations, and that a proposal
 is paid out at most once.
 */
module Traces {
  import opened Ledger
  import opened CharityFund
  import opened Invariants

  function Run(v: Variant, s: State, tr: seq<Instruction>): State
    decreases |tr|
  {
    if tr == [] then s else Run(v, Apply(v, s, tr[0]), tr[1..])
  }

  /** Lamports that `ix`, if it succeeds as a donation, moves into the treasury of `campaign`. */
  function DonatedIn(v: Variant, s: State, ix: Instruction, campaign: Address): nat
  {
    match ix
    case Donation(c, _, amount) => if c == campaign && Step(v, s, ix).Ok? then amount else 0
    case _ => 0
  }

  /**
   The amount that `ix`, if it succeeds as an execution naming `campaign`,
   pays out of that campaign's treasury. The proposal executed need not
   belong to `campaign` unless the variant binds it.
   */
  function DisbursedIn(v: Variant, s: State, ix: Instruction, campaign: Address): nat
  {
    match ix
    case Execute(p, c, _) => if c == campaign && Step(v, s, ix).Ok? then ProposalAt(s, p).amount else 0
    case _ => 0
  }

  /** The amount that `ix`, if it succeeds as an execution, pays to `recipient`. */
  function PaidIn(v: Variant, s: State, ix: Instruction, recipient: Address): nat
  {
    match ix
    case Execute(p, _, r) => if r == recipient && Step(v, s, ix).Ok? then ProposalAt(s, p).amount else 0
    case _ => 0
  }

  /** Lamports the successful donations of `tr` moved into the treasury of `campaign`. */
  function Donated(v: Variant, s: State, tr: seq<Instruction>, campaign: Address): nat
    decreases |tr|
  {
    if tr == [] then 0 else DonatedIn(v, s, tr[0], campaign) + Donated(v, Apply(v, s, tr[0]), tr[1..], campaign)
  }

  /** The amounts of the executions in `tr` that named `campaign`, and so were paid out of its treasury. */
  function Disbursed(v: Variant, s: State, tr: seq<Instruction>, campaign: Address): nat
    decreases |tr|
  {
    if tr == [] then 0 else DisbursedIn(v, s, tr[0], campaign) + Disbursed(v, Apply(v, s, tr[0]), tr[1..], campaign)
  }

  /** The amounts `tr` paid out to `recipient` by executing proposals. */
  function PaidTo(v: Variant, s: State, tr: seq<Instruction>, recipient: Address): nat
    decreases |tr|
  {
    if tr == [] then 0 else PaidIn(v, s, tr[0], recipient) + PaidTo(v, Apply(v, s, tr[0]), tr[1..], recipient)
  }

  /** The number of successful executions of the proposal at `proposal` in `tr`. */
  function Executions(v: Variant, s: State, tr: seq<Instruction>, proposal: Address): nat
    decreases |tr|
  {
    if tr == [] then 0
    else
      var here := if tr[0].Execute? && tr[0].proposal == proposal && Step(v, s, tr[0]).Ok? then 1 else 0;
      here + Executions(v, Apply(v, s, tr[0]), tr[1..], proposal)
  }

  /**
   One instruction moves a treasury's lamports only by a donation to its
   campaign, an execution naming its campaign, or an execution paying it.
   */
  lemma StepTreasuryBalance(v: Variant, s: State, ix: Instruction, campaign: Address)
    ensures Balance(Apply(v, s, ix), TreasuryOf(campaign)) + DisbursedIn(v, s, ix, campaign)
            == Balance(s, TreasuryOf(campaign)) + DonatedIn(v, s, ix, campaign) + PaidIn(v, s, ix, TreasuryOf(campaign))
  {
    match ix
    case Donation(c, donor, amount) =>
      if Step(v, s, ix).Ok? && c != campaign {
        assert TreasuryOf(campaign) != TreasuryOf(c);
      }
    case Execute(p, c, r) =>
      if Step(v, s, ix).Ok? && c != campaign {
        assert TreasuryOf(campaign) != TreasuryOf(c);
      }
    case _ =>
  }

  /** With the proposal bound to its campaign, a treasury only ever pays its own campaign's proposals. */
  lemma CorrectedDisbursesOwnProposals(s: State, ix: Instruction, campaign: Address)
    requires DisbursedIn(Corrected, s, ix, campaign) > 0
    ensures ix.Execute? && IsProposal(s, ix.proposal) && ProposalAt(s, ix.proposal).campaign == campaign
  {
  }

  /**
   Lamport conservation for a treasury, in either variant: after any run,
   its balance is the starting balance plus what was donated to its campaign
   and what executions paid to it, minus the amounts of the executions that
   named its campaign. Nothing else moves a treasury's lamports.
   */
  lemma {:induction false} TreasuryConservation(v: Variant, s: State, tr: seq<Instruction>, campaign: Address)
    ensures Balance(Run(v, s, tr), TreasuryOf(campaign)) + Disbursed(v, s, tr, campaign)
            == Balance(s, TreasuryOf(campaign)) + Donated(v, s, tr, campaign) + PaidTo(v, s, tr, TreasuryOf(campaign))
    decreases |tr|
  {
    if tr != [] {
      StepTreasuryBalance(v, s, tr[0], campaign);
      TreasuryConservation(v, Apply(v, s, tr[0]), tr[1..], campaign);
    }
  }

  /** `total_donated` of an existing campaign grows by exactly what the run donated to it. */
  lemma {:induction false} TotalDonatedTracksDonations(v: Variant, s: State, tr: seq<Instruction>, campaign: Address)
    requires IsCampaign(s, campaign)
    ensures IsCampaign(Run(v, s, tr), campaign)
    ensures CampaignAt(Run(v, s, tr), campaign).totalDonated == CampaignAt(s, campaign).totalDonated + Donated(v, s, tr, campaign)
    decreases |tr|
  {
    if tr != [] {
      var t := Apply(v, s, tr[0]);
      StepExtends(v, s, tr[0]);
      assert IsCampaign(t, campaign);
      TotalDonatedTracksDonations(v, t, tr[1..], campaign);
      if Step(v, s, tr[0]).Ok? && !(tr[0].Donation? && tr[0].campaign == campaign) {
        assert RecordAt(s, campaign) == RecordAt(t, campaign);
      }
    }
  }

  /**
   For a campaign that exists at the start, the treasury's balance less
   `total_donated` changes only by executed payouts: what its own proposals
   took out, and what other proposals paid into it.
   */
  lemma TreasuryMatchesTotals(v: Variant, s: State, tr: seq<Instruction>, campaign: Address)
    requires IsCampaign(s, campaign)
    ensures IsCampaign(Run(v, s, tr), campaign)
    ensures Balance(Run(v, s, tr), TreasuryOf(campaign)) - CampaignAt(Run(v, s, tr), campaign).totalDonated
            == Balance(s, TreasuryOf(campaign)) - CampaignAt(s, campaign).totalDonated
               + PaidTo(v, s, tr, TreasuryOf(campaign)) - Disbursed(v, s, tr, campaign)
  {
    TreasuryConservation(v, s, tr, campaign);
    TotalDonatedTracksDonations(v, s, tr, campaign);
  }

  /** Once executed, a proposal stays executed through any run. */
  lemma {:induction false} ExecutedStaysExecuted(v: Variant, s: State, tr: seq<Instruction>, proposal: Address)
    requires IsProposal(s, proposal) && ProposalAt(s, proposal).executed
    ensures IsProposal(Run(v, s, tr), proposal) && ProposalAt(Run(v, s, tr), proposal).executed
    decreases |tr|
  {
    if tr != [] {
      StepExtends(v, s, tr[0]);
      ExecutedStaysExecuted(v, Apply(v, s, tr[0]), tr[1..], proposal);
    }
  }

  /**
   A proposal is executed at most once in any run, and never if it was
   already executed at the start: its amount leaves the treasury at most once.
   */
  lemma {:induction false} ExecutesAtMostOnce(v: Variant, s: State, tr: seq<Instruction>, proposal: Address)
    ensures Executions(v, s, tr, proposal) <= (if IsProposal(s, proposal) && ProposalAt(s, proposal).executed then 0 else 1)
    decreases |tr|
  {
    if tr != [] {
      var t := Apply(v, s, tr[0]);
      StepExtends(v, s, tr[0]);
      ExecutesAtMostOnce(v, t, tr[1..], proposal);
      if tr[0].Execute? && tr[0].proposal == proposal && Step(v, s, tr[0]).Ok? {
        assert IsProposal(t, proposal) && ProposalAt(t, proposal).executed;
      }
    }
  }

  /** A ledger that holds none of the program's records satisfies the invariant. */
  lemma EmptyLedgerInv(s: State)
    requires s.accounts == map[]
    ensures Inv(s)
  {
  }

  lemma {:induction false} RunPreservesInv(v: Variant, s: State, tr: seq<Instruction>)
    requires Inv(s)
    ensures Inv(Run(v, s, tr))
    decreases |tr|
  {
    if tr != [] {
      StepPreservesInv(v, s, tr[0]);
      RunPreservesInv(v, Apply(v, s, tr[0]), tr[1..]);
    }
  }

  /**
   Starting from a ledger with none of the program's records, after any run
   the yes and no tallies of every proposal add up to the number of vote
   records on it, and every campaign is still active.
   */
  lemma TalliesMatchVoteRecords(v: Variant, s: State, tr: seq<Instruction>)
    requires s.accounts == map[]
    ensures forall p :: IsProposal(Run(v, s, tr), p) ==>
              ProposalAt(Run(v, s, tr), p).yesVotes + ProposalAt(Run(v, s, tr), p).noVotes == |VotesOn(Run(v, s, tr), p)|
    ensures forall c :: IsCampaign(Run(v, s, tr), c) ==> CampaignAt(Run(v, s, tr), c).isActive
  {
    EmptyLedgerInv(s);
    RunPreservesInv(v, s, tr);
    var u := Run(v, s, tr);
    forall p | IsProposal(u, p)
      ensures ProposalAt(u, p).yesVotes + ProposalAt(u, p).noVotes == |VotesOn(u, p)|
    {
      assert TallyMatches(u, p);
    }
    forall c | IsCampaign(u, c)
      ensures CampaignAt(u, c).isActive
    {
      assert WellPlaced(u, c);
    }
  }

  /** In any reachable ledger, a donation is never rejected as CampaignInactive. */
  lemma DonateNeverInactive(v: Variant, s: State, tr: seq<Instruction>, campaign: Address, donor: Signer, amount: U64)
    requires s.accounts == map[]
    ensures Donate(Run(v, s, tr), campaign, donor, amount) != Err(CampaignInactive)
  {
    TalliesMatchVoteRecords(v, s, tr);
  }
}
