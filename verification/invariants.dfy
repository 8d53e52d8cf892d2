/**
 Invariants of every ledger state the program can reach from a ledger that
 holds none of its records: records sit at the addresses their seeds derive,
 every campaign has its treasury and stays active, and the two tallies of a
 proposal add up to the number of vote records on it.
 */
module Invariants {
  import opened Ledger
  import opened CharityFund

  /** The vote records on the proposal at `p`, by address. */
  function VotesOn(s: State, p: Address): set<Address>
  {
    set a | a in s.accounts && s.accounts[a].VoteRecord? && a.Pda? && |a.seeds| == 2 && a.seeds[0] == p
  }

  /** A record sits where the program can create it, and what it refers to exists. */
  ghost predicate WellPlaced(s: State, a: Address)
    requires a in s.accounts
  {
    match s.accounts[a]
    case CampaignAccount(c) => a.Key? && RecordAt(s, TreasuryOf(a)) == Some(Treasury) && c.isActive
    case ProposalAccount(p) =>
      a == ProposalAddress(p.campaign, p.proposer) && p.proposer.Key? && IsCampaign(s, p.campaign)
    case VoteRecord =>
      a.Pda? && a.kind == VoteLabel && |a.seeds| == 2 && a.seeds[1].Key? && IsProposal(s, a.seeds[0])
    case Treasury =>
      a.Pda? && a.kind == TreasuryLabel && |a.seeds| == 1 && IsCampaign(s, a.seeds[0])
  }

  ghost predicate TallyMatches(s: State, p: Address)
    requires IsProposal(s, p)
  {
    ProposalAt(s, p).yesVotes + ProposalAt(s, p).noVotes == |VotesOn(s, p)|
  }

  ghost predicate Inv(s: State)
  {
    && (forall a :: a in s.accounts ==> WellPlaced(s, a))
    && (forall p :: IsProposal(s, p) ==> TallyMatches(s, p))
  }

  /** What survives any instruction in a record: its kind, its locked fields, and `executed` once set. */
  ghost predicate Evolves(x: Account, y: Account)
  {
    match x
    case CampaignAccount(c) =>
      && y.CampaignAccount?
      && y.campaign.admin == c.admin
      && y.campaign.targetAmount == c.targetAmount
      && y.campaign.isActive == c.isActive
      && y.campaign.totalDonated >= c.totalDonated
    case ProposalAccount(p) =>
      && y.ProposalAccount?
      && y.proposal.campaign == p.campaign
      && y.proposal.proposer == p.proposer
      && y.proposal.recipientWallet == p.recipientWallet
      && y.proposal.recipientIdentityHash == p.recipientIdentityHash
      && y.proposal.amount == p.amount
      && y.proposal.yesVotes >= p.yesVotes
      && y.proposal.noVotes >= p.noVotes
      && (p.executed ==> y.proposal.executed)
    case VoteRecord => y == x
    case Treasury => y == x
  }

  /** No record is removed, and every record only evolves. */
  ghost predicate Extends(s: State, t: State)
  {
    forall a :: a in s.accounts ==> a in t.accounts && Evolves(s.accounts[a], t.accounts[a])
  }

  /**
   No instruction removes a record, changes its kind, or rewrites a
   campaign's admin, target or activity, or a proposal's campaign, proposer,
   recipient, identity hash or amount; totals and tallies only grow and
   `executed` is never cleared.
   */
  lemma StepExtends(v: Variant, s: State, ix: Instruction)
    ensures Extends(s, Apply(v, s, ix))
  {
    var t := Apply(v, s, ix);
    forall a | a in s.accounts
      ensures a in t.accounts && Evolves(s.accounts[a], t.accounts[a])
    {
      assert RecordAt(s, a) == Some(s.accounts[a]);
    }
  }

  /** A record that evolved from a well-placed one is still well placed. */
  lemma ExtendsKeepsWellPlaced(s: State, t: State, a: Address)
    requires Extends(s, t) && a in s.accounts && WellPlaced(s, a)
    ensures a in t.accounts && WellPlaced(t, a)
  {
    match s.accounts[a]
    case CampaignAccount(c) =>
      assert TreasuryOf(a) in s.accounts;
    case ProposalAccount(p) =>
      assert p.campaign in s.accounts;
    case VoteRecord =>
      assert a.seeds[0] in s.accounts;
    case Treasury =>
      assert a.seeds[0] in s.accounts;
  }

  /** Vote records are the same in both states, so are the votes on every proposal. */
  lemma SameVoteRecords(s: State, t: State)
    requires forall a :: (a in s.accounts && s.accounts[a].VoteRecord?) <==> (a in t.accounts && t.accounts[a].VoteRecord?)
    ensures forall p :: VotesOn(s, p) == VotesOn(t, p)
  {
  }

  /** Adding the vote record `v` on `p` adds one vote on `p` and none on any other proposal. */
  lemma OneMoreVote(s: State, t: State, p: Address, voter: Address)
    requires VoteAddress(p, voter) !in s.accounts
    requires forall a :: (a in t.accounts && t.accounts[a].VoteRecord?) <==>
                         (a in s.accounts && s.accounts[a].VoteRecord?) || a == VoteAddress(p, voter)
    ensures |VotesOn(t, p)| == |VotesOn(s, p)| + 1
    ensures forall q :: q != p ==> VotesOn(t, q) == VotesOn(s, q)
  {
    var v := VoteAddress(p, voter);
    assert VotesOn(t, p) == VotesOn(s, p) + {v};
    assert v !in VotesOn(s, p);
  }

  /** In a state satisfying the invariant, an address holding no proposal has no votes. */
  lemma NoVotesWithoutProposal(s: State, p: Address)
    requires Inv(s) && !IsProposal(s, p)
    ensures VotesOn(s, p) == {}
  {
    forall a | a in s.accounts && s.accounts[a].VoteRecord?
      ensures a.Pda? && |a.seeds| == 2 && IsProposal(s, a.seeds[0])
    {
      assert WellPlaced(s, a);
    }
  }

  /** Records that were well placed stay well placed in an extension. */
  lemma OldRecordsStayWellPlaced(s: State, t: State)
    requires Inv(s) && Extends(s, t)
    ensures forall a :: a in s.accounts ==> a in t.accounts && WellPlaced(t, a)
  {
    forall a | a in s.accounts
      ensures a in t.accounts && WellPlaced(t, a)
    {
      ExtendsKeepsWellPlaced(s, t, a);
    }
  }

  /** Tallies still match when neither the vote records nor any tally changed. */
  lemma TalliesCarryOver(s: State, t: State)
    requires Inv(s)
    requires forall a :: (a in s.accounts && s.accounts[a].VoteRecord?) <==> (a in t.accounts && t.accounts[a].VoteRecord?)
    requires forall p :: IsProposal(t, p) ==>
               IsProposal(s, p)
               && ProposalAt(t, p).yesVotes == ProposalAt(s, p).yesVotes
               && ProposalAt(t, p).noVotes == ProposalAt(s, p).noVotes
    ensures forall p :: IsProposal(t, p) ==> TallyMatches(t, p)
  {
    SameVoteRecords(s, t);
    forall p | IsProposal(t, p)
      ensures TallyMatches(t, p)
    {
      assert TallyMatches(s, p);
    }
  }

  lemma InitializePreservesInv(s: State, admin: Signer, campaign: Signer, target: U64)
    requires Inv(s) && InitializeCampaign(s, admin, campaign, target).Ok?
    ensures Inv(InitializeCampaign(s, admin, campaign, target).value)
  {
    var t := InitializeCampaign(s, admin, campaign, target).value;
    StepExtends(AsWritten, s, Initialize(admin, campaign, target));
    OldRecordsStayWellPlaced(s, t);
    assert forall a :: a in t.accounts && a != campaign && a != TreasuryOf(campaign) ==> RecordAt(s, a) == RecordAt(t, a);
    assert WellPlaced(t, TreasuryOf(campaign));
    TalliesCarryOver(s, t);
  }

  lemma DonatePreservesInv(s: State, campaign: Address, donor: Signer, amount: U64)
    requires Inv(s) && Donate(s, campaign, donor, amount).Ok?
    ensures Inv(Donate(s, campaign, donor, amount).value)
  {
    var t := Donate(s, campaign, donor, amount).value;
    StepExtends(AsWritten, s, Donation(campaign, donor, amount));
    OldRecordsStayWellPlaced(s, t);
    assert forall a :: a != campaign ==> RecordAt(s, a) == RecordAt(t, a);
    TalliesCarryOver(s, t);
  }

  lemma ProposePreservesInv(
    s: State, campaign: Address, proposer: Signer, wallet: Address, hash: IdentityHash, amount: U64)
    requires Inv(s) && CreateProposal(s, campaign, proposer, wallet, hash, amount).Ok?
    ensures Inv(CreateProposal(s, campaign, proposer, wallet, hash, amount).value)
  {
    var t := CreateProposal(s, campaign, proposer, wallet, hash, amount).value;
    var pa := ProposalAddress(campaign, proposer);
    StepExtends(AsWritten, s, Propose(campaign, proposer, wallet, hash, amount));
    OldRecordsStayWellPlaced(s, t);
    assert forall a :: a != pa ==> RecordAt(s, a) == RecordAt(t, a);
    assert WellPlaced(t, pa);
    SameVoteRecords(s, t);
    NoVotesWithoutProposal(s, pa);
    forall p | IsProposal(t, p)
      ensures TallyMatches(t, p)
    {
      if p != pa {
        assert IsProposal(s, p) && TallyMatches(s, p);
      }
    }
  }

  /** The vote record a successful vote creates is well placed, and so is every older record. */
  lemma VoteKeepsPlacement(s: State, proposal: Address, voter: Signer, approve: bool)
    requires Inv(s) && Vote(s, proposal, voter, approve).Ok?
    ensures forall a :: a in Vote(s, proposal, voter, approve).value.accounts ==>
              WellPlaced(Vote(s, proposal, voter, approve).value, a)
  {
    var t := Vote(s, proposal, voter, approve).value;
    var v := VoteAddress(proposal, voter);
    StepExtends(AsWritten, s, Ballot(proposal, voter, approve));
    OldRecordsStayWellPlaced(s, t);
    assert forall a :: a in t.accounts ==> a in s.accounts || a == v;
    assert WellPlaced(t, v);
  }

  /** A successful vote adds one to the voted proposal's tallies and one vote record on it, and nothing on others. */
  lemma VoteKeepsTallies(s: State, proposal: Address, voter: Signer, approve: bool)
    requires Inv(s) && Vote(s, proposal, voter, approve).Ok?
    ensures forall p :: IsProposal(Vote(s, proposal, voter, approve).value, p) ==>
              TallyMatches(Vote(s, proposal, voter, approve).value, p)
  {
    var t := Vote(s, proposal, voter, approve).value;
    var v := VoteAddress(proposal, voter);
    assert forall a :: a != proposal && a != v ==> RecordAt(s, a) == RecordAt(t, a);
    OneMoreVote(s, t, proposal, voter);
    forall p | IsProposal(t, p)
      ensures TallyMatches(t, p)
    {
      assert IsProposal(s, p) && TallyMatches(s, p);
    }
  }

  lemma VotePreservesInv(s: State, proposal: Address, voter: Signer, approve: bool)
    requires Inv(s) && Vote(s, proposal, voter, approve).Ok?
    ensures Inv(Vote(s, proposal, voter, approve).value)
  {
    VoteKeepsPlacement(s, proposal, voter, approve);
    VoteKeepsTallies(s, proposal, voter, approve);
  }

  /** An execution only marks the proposal executed: every record evolves and none disappears. */
  lemma ExecuteAsWrittenExtends(s: State, proposal: Address, campaign: Address, recipient: Address)
    requires ExecuteProposalAsWritten(s, proposal, campaign, recipient).Ok?
    ensures Extends(s, ExecuteProposalAsWritten(s, proposal, campaign, recipient).value)
  {
    StepExtends(AsWritten, s, Execute(proposal, campaign, recipient));
  }

  /** The execution as the program declares it keeps the invariant, whichever campaign's treasury pays. */
  lemma ExecuteAsWrittenPreservesInv(s: State, proposal: Address, campaign: Address, recipient: Address)
    requires Inv(s) && ExecuteProposalAsWritten(s, proposal, campaign, recipient).Ok?
    ensures Inv(ExecuteProposalAsWritten(s, proposal, campaign, recipient).value)
  {
    var t := ExecuteProposalAsWritten(s, proposal, campaign, recipient).value;
    ExecuteAsWrittenExtends(s, proposal, campaign, recipient);
    OldRecordsStayWellPlaced(s, t);
    assert forall a :: a != proposal ==> RecordAt(s, a) == RecordAt(t, a);
    TalliesCarryOver(s, t);
  }

  lemma ExecutePreservesInv(s: State, proposal: Address, campaign: Address, recipient: Address)
    requires Inv(s) && ExecuteProposal(s, proposal, campaign, recipient).Ok?
    ensures Inv(ExecuteProposal(s, proposal, campaign, recipient).value)
  {
    ExecuteAsWrittenPreservesInv(s, proposal, campaign, recipient);
  }

  /** Every instruction, successful or not, preserves the invariant, in either variant. */
  lemma StepPreservesInv(v: Variant, s: State, ix: Instruction)
    requires Inv(s)
    ensures Inv(Apply(v, s, ix))
  {
    if Step(v, s, ix).Ok? {
      match ix
      case Initialize(admin, campaign, target) => InitializePreservesInv(s, admin, campaign, target);
      case Donation(campaign, donor, amount) => DonatePreservesInv(s, campaign, donor, amount);
      case Propose(campaign, proposer, wallet, hash, amount) =>
        ProposePreservesInv(s, campaign, proposer, wallet, hash, amount);
      case Ballot(proposal, voter, approve) => VotePreservesInv(s, proposal, voter, approve);
      case Execute(proposal, campaign, recipient) =>
        if v == AsWritten {
          ExecuteAsWrittenPreservesInv(s, proposal, campaign, recipient);
        } else {
          ExecutePreservesInv(s, proposal, campaign, recipient);
        }
    }
  }
}
