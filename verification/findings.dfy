/**
 `execute_proposal` loads the proposal and the campaign as two independent
 accounts and pays out of the treasury derived from the campaign passed in;
 no constraint ties that campaign to the proposal's own. A scenario reachable
 from an empty ledger: two campaigns each receive a donation, a proposal on
 the first passes, and executing it with the SECOND campaign pays the
 proposal out of the second campaign's treasury. With the proposal bound to
 its campaign, the same call is rejected, and only the first campaign's
 treasury can pay.
 */
module CampaignBinding {
  import opened Ledger
  import opened CharityFund

  const Admin: Signer := Key(0)
  const First: Signer := Key(1)
  const Second: Signer := Key(2)
  const Donor: Signer := Key(3)
  const Proposer: Signer := Key(4)
  const Voter: Signer := Key(5)
  const Recipient: Signer := Key(6)

  const Hash: IdentityHash := [7, 7, 7, 7, 7, 7, 7, 7, 7, 7, 7, 7, 7, 7, 7, 7, 7, 7, 7, 7, 7, 7, 7, 7, 7, 7, 7, 7, 7, 7, 7, 7]

  /** A ledger with no program records, where only the donor holds lamports; every scenario starts here. */
  const Genesis: State := State(map[], map[Donor := 1000])

  /** Two campaigns opened by the same admin. */
  function Opened(): (s: State)
    ensures IsCampaign(s, First) && IsCampaign(s, Second)
    ensures CampaignAt(s, First).isActive && CampaignAt(s, Second).isActive
    ensures CampaignAt(s, First).totalDonated == 0 && CampaignAt(s, Second).totalDonated == 0
    ensures Balance(s, Donor) == 1000 && Balance(s, Recipient) == 0
    ensures Balance(s, TreasuryOf(First)) == 0 && Balance(s, TreasuryOf(Second)) == 0
    ensures ProposalAddress(First, Proposer) !in s.accounts
    ensures VoteAddress(ProposalAddress(First, Proposer), Voter) !in s.accounts
  {
    var s1 := InitializeCampaign(Genesis, Admin, First, 500).value;
    assert RecordAt(s1, Second) == None && RecordAt(s1, TreasuryOf(Second)) == None;
    var s2 := InitializeCampaign(s1, Admin, Second, 500).value;
    assert RecordAt(s2, First) == RecordAt(s1, First);
    assert RecordAt(s2, ProposalAddress(First, Proposer)) == None;
    assert RecordAt(s2, VoteAddress(ProposalAddress(First, Proposer), Voter)) == None;
    s2
  }

  /** Both campaigns receive 100 lamports from the donor. */
  function Funded(): (s: State)
    ensures IsCampaign(s, First) && IsCampaign(s, Second)
    ensures Balance(s, TreasuryOf(First)) == 100 && Balance(s, TreasuryOf(Second)) == 100
    ensures Balance(s, Recipient) == 0
    ensures ProposalAddress(First, Proposer) !in s.accounts
    ensures VoteAddress(ProposalAddress(First, Proposer), Voter) !in s.accounts
  {
    var s2 := Opened();
    var s3 := Donate(s2, First, Donor, 100).value;
    assert RecordAt(s3, Second) == RecordAt(s2, Second);
    assert Balance(s3, TreasuryOf(Second)) == 0 && Balance(s3, Donor) == 900;
    var s4 := Donate(s3, Second, Donor, 100).value;
    assert RecordAt(s4, First) == RecordAt(s3, First);
    assert RecordAt(s4, ProposalAddress(First, Proposer)) == None;
    assert RecordAt(s4, VoteAddress(ProposalAddress(First, Proposer), Voter)) == None;
    s4
  }

  /** A proposal for 100 on the first campaign, with one yes vote. */
  function Passed(): (s: State)
    ensures IsCampaign(s, First) && IsCampaign(s, Second)
    ensures IsProposal(s, ProposalAddress(First, Proposer))
    ensures ProposalAt(s, ProposalAddress(First, Proposer)).campaign == First
    ensures ProposalAt(s, ProposalAddress(First, Proposer)).amount == 100
    ensures Passes(ProposalAt(s, ProposalAddress(First, Proposer)), Recipient)
    ensures Balance(s, TreasuryOf(First)) == 100 && Balance(s, TreasuryOf(Second)) == 100
    ensures Balance(s, Recipient) == 0
  {
    var pa := ProposalAddress(First, Proposer);
    var s4 := Funded();
    var s5 := CreateProposal(s4, First, Proposer, Recipient, Hash, 100).value;
    assert RecordAt(s5, First) == RecordAt(s4, First) && RecordAt(s5, Second) == RecordAt(s4, Second);
    assert RecordAt(s5, VoteAddress(pa, Voter)) == None;
    var s6 := Vote(s5, pa, Voter, true).value;
    assert RecordAt(s6, First) == RecordAt(s5, First) && RecordAt(s6, Second) == RecordAt(s5, Second);
    s6
  }

  /**
   As written: executing the first campaign's proposal against the second
   campaign succeeds and takes the 100 lamports from the SECOND campaign's
   treasury, although no proposal of the second campaign was ever executed;
   the first campaign's treasury keeps its 100.
   */
  lemma AsWrittenPaysFromForeignTreasury()
    ensures var s := Passed();
      var r := ExecuteProposalAsWritten(s, ProposalAddress(First, Proposer), Second, Recipient);
      && IsProposal(s, ProposalAddress(First, Proposer))
      && ProposalAt(s, ProposalAddress(First, Proposer)).campaign != Second
      && r.Ok?
      && Balance(r.value, TreasuryOf(Second)) == 0
      && Balance(r.value, TreasuryOf(First)) == 100
      && Balance(r.value, Recipient) == 100
  {
    assert TreasuryOf(First) != TreasuryOf(Second);
  }

  /**
   Corrected: the same call fails with CampaignMismatch, and the proposal can
   only be paid by naming its own campaign, out of that campaign's treasury.
   */
  lemma BoundExecutionPaysFromOwnTreasury()
    ensures var s := Passed();
      && ExecuteProposal(s, ProposalAddress(First, Proposer), Second, Recipient) == Err(CampaignMismatch)
      && var r := ExecuteProposal(s, ProposalAddress(First, Proposer), First, Recipient);
         && r.Ok?
         && Balance(r.value, TreasuryOf(First)) == 0
         && Balance(r.value, TreasuryOf(Second)) == 100
  {
    assert TreasuryOf(First) != TreasuryOf(Second);
  }

  /**
   Corrected, for every ledger: a successful execution names the proposal's
   own campaign, and no treasury but that campaign's loses lamports.
   */
  lemma BoundExecutionDebitsOnlyOwnTreasury(s: State, proposal: Address, campaign: Address, recipient: Address, other: Address)
    requires ExecuteProposal(s, proposal, campaign, recipient).Ok?
    requires other != campaign
    ensures ProposalAt(s, proposal).campaign == campaign
    ensures Balance(ExecuteProposal(s, proposal, campaign, recipient).value, TreasuryOf(other)) >= Balance(s, TreasuryOf(other))
  {
    assert TreasuryOf(other) != TreasuryOf(campaign);
  }
}
