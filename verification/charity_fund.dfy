/**
 The five instructions of the charity-fund program, each a total function
 from a ledger state to the next state or an error. An instruction is
 all-or-nothing: an error carries no state, so a failed call changes nothing.

 Each instruction first performs the framework's account validation (in the
 order the accounts are declared, with `init` accounts created after the
 others are loaded) and then runs the handler's own checks and effects.
 */
module CharityFund {
  import opened Ledger

  /**
   `initialize_campaign`: creates the campaign record at the fresh keypair
   address `campaign` and the data-less treasury at its derived address.
   Both are `init` accounts, so the call fails if either is already in use.
   There is no check on `targetAmount`.
   */
  function InitializeCampaign(s: State, admin: Signer, campaign: Signer, targetAmount: U64): (r: Result<State>)
    ensures r.Ok? <==> campaign !in s.accounts && TreasuryOf(campaign) !in s.accounts
    ensures r.Err? ==> r.error == AccountAlreadyInUse
    ensures r.Ok? ==>
              && IsCampaign(r.value, campaign)
              && CampaignAt(r.value, campaign).admin == admin
              && CampaignAt(r.value, campaign).targetAmount == targetAmount
              && CampaignAt(r.value, campaign).totalDonated == 0
              && CampaignAt(r.value, campaign).isActive
              && RecordAt(r.value, TreasuryOf(campaign)) == Some(Treasury)
              && RecordsAgreeOutside(s, r.value, {campaign, TreasuryOf(campaign)})
              && r.value.lamports == s.lamports
  {
    if campaign in s.accounts || TreasuryOf(campaign) in s.accounts then Err(AccountAlreadyInUse)
    else
      var record := Campaign(admin := admin, targetAmount := targetAmount, totalDonated := 0, isActive := true);
      Ok(s.(accounts := s.accounts[campaign := CampaignAccount(record)][TreasuryOf(campaign) := Treasury]))
  }

  /**
   `donate`: moves `amount` lamports from the donor to the campaign's treasury
   and adds `amount` to `total_donated`. Rejected with CampaignInactive when
   the campaign is not active. There is no check on `amount` (zero is accepted)
   and no cap against the target.
   */
  function Donate(s: State, campaign: Address, donor: Signer, amount: U64): (r: Result<State>)
    ensures r.Ok? <==>
              && IsCampaign(s, campaign)
              && CampaignAt(s, campaign).isActive
              && Balance(s, donor) >= amount
              && Balance(s, TreasuryOf(campaign)) + amount <= U64_MAX
              && CampaignAt(s, campaign).totalDonated + amount <= U64_MAX
    ensures !IsCampaign(s, campaign) ==> r == Err(AccountNotInitialized)
    ensures IsCampaign(s, campaign) && !CampaignAt(s, campaign).isActive ==> r == Err(CampaignInactive)
    ensures IsCampaign(s, campaign) && CampaignAt(s, campaign).isActive && Balance(s, donor) < amount ==>
              r == Err(InsufficientFunds)
    ensures r.Err? ==> r.error in {AccountNotInitialized, CampaignInactive, InsufficientFunds, ArithmeticOverflow}
    ensures r.Ok? ==>
              && IsCampaign(r.value, campaign)
              && CampaignAt(r.value, campaign).totalDonated == CampaignAt(s, campaign).totalDonated + amount
              && CampaignAt(r.value, campaign).admin == CampaignAt(s, campaign).admin
              && CampaignAt(r.value, campaign).targetAmount == CampaignAt(s, campaign).targetAmount
              && CampaignAt(r.value, campaign).isActive == CampaignAt(s, campaign).isActive
              && RecordsAgreeOutside(s, r.value, {campaign})
              && Balance(r.value, TreasuryOf(campaign)) == Balance(s, TreasuryOf(campaign)) + amount
              && Balance(r.value, donor) == Balance(s, donor) - amount
              && BalancesAgreeOutside(s, r.value, {donor, TreasuryOf(campaign)})
  {
    if !IsCampaign(s, campaign) then Err(AccountNotInitialized)
    else
      var c := CampaignAt(s, campaign);
      if !c.isActive then Err(CampaignInactive)
      else
        var paid :- Transfer(s, donor, TreasuryOf(campaign), amount);
        if c.totalDonated + amount > U64_MAX then Err(ArithmeticOverflow)
        else
          var c' := c.(totalDonated := c.totalDonated + amount);
          Ok(paid.(accounts := paid.accounts[campaign := CampaignAccount(c')]))
  }

  /**
   `create_proposal`: creates the proposal of `proposer` on `campaign` at its
   derived address, locking in the recipient, the identity hash and the
   amount, with both tallies zero and `executed` false. The proposal is an
   `init` account, so a second proposal by the same proposer on the same
   campaign fails. Neither the amount nor the campaign's activity is checked.
   */
  function CreateProposal(
    s: State, campaign: Address, proposer: Signer,
    recipientWallet: Address, recipientIdentityHash: IdentityHash, amount: U64): (r: Result<State>)
    ensures r.Ok? <==> IsCampaign(s, campaign) && ProposalAddress(campaign, proposer) !in s.accounts
    ensures !IsCampaign(s, campaign) ==> r == Err(AccountNotInitialized)
    ensures IsCampaign(s, campaign) && ProposalAddress(campaign, proposer) in s.accounts ==> r == Err(AccountAlreadyInUse)
    ensures r.Ok? ==>
              var p := ProposalAddress(campaign, proposer);
              && IsProposal(r.value, p)
              && ProposalAt(r.value, p).campaign == campaign
              && ProposalAt(r.value, p).proposer == proposer
              && ProposalAt(r.value, p).recipientWallet == recipientWallet
              && ProposalAt(r.value, p).recipientIdentityHash == recipientIdentityHash
              && ProposalAt(r.value, p).amount == amount
              && ProposalAt(r.value, p).yesVotes == 0
              && ProposalAt(r.value, p).noVotes == 0
              && !ProposalAt(r.value, p).executed
              && RecordsAgreeOutside(s, r.value, {p})
              && r.value.lamports == s.lamports
  {
    if !IsCampaign(s, campaign) then Err(AccountNotInitialized)
    else
      var p := ProposalAddress(campaign, proposer);
      if p in s.accounts then Err(AccountAlreadyInUse)
      else
        var record := Proposal(
          campaign := campaign, proposer := proposer,
          recipientWallet := recipientWallet, recipientIdentityHash := recipientIdentityHash,
          amount := amount, yesVotes := 0, noVotes := 0, executed := false);
        Ok(s.(accounts := s.accounts[p := ProposalAccount(record)]))
  }

  /** The tally `approve` adds to. */
  function Tally(p: Proposal, approve: bool): U64
  {
    if approve then p.yesVotes else p.noVotes
  }

  /**
   `vote`: creates the voter's vote record on the proposal (an `init`
   account, so at most once per voter and proposal) and then, unless the
   proposal is already executed, adds one to exactly one of the tallies.
   */
  function Vote(s: State, proposal: Address, voter: Signer, approve: bool): (r: Result<State>)
    ensures r.Ok? <==>
              && IsProposal(s, proposal)
              && VoteAddress(proposal, voter) !in s.accounts
              && !ProposalAt(s, proposal).executed
              && Tally(ProposalAt(s, proposal), approve) < U64_MAX
    ensures !IsProposal(s, proposal) ==> r == Err(AccountNotInitialized)
    ensures IsProposal(s, proposal) && VoteAddress(proposal, voter) in s.accounts ==> r == Err(AccountAlreadyInUse)
    ensures IsProposal(s, proposal) && VoteAddress(proposal, voter) !in s.accounts && ProposalAt(s, proposal).executed ==>
              r == Err(ProposalAlreadyExecuted)
    ensures r.Err? ==> r.error in {AccountNotInitialized, AccountAlreadyInUse, ProposalAlreadyExecuted, ArithmeticOverflow}
    ensures r.Ok? ==> IsProposal(r.value, proposal)
    ensures r.Ok? ==>
              var before, after := ProposalAt(s, proposal), ProposalAt(r.value, proposal);
              && after.yesVotes == before.yesVotes + (if approve then 1 else 0)
              && after.noVotes == before.noVotes + (if approve then 0 else 1)
              && after == before.(yesVotes := after.yesVotes, noVotes := after.noVotes)
              && RecordAt(r.value, VoteAddress(proposal, voter)) == Some(VoteRecord)
              && RecordsAgreeOutside(s, r.value, {proposal, VoteAddress(proposal, voter)})
              && r.value.lamports == s.lamports
  {
    if !IsProposal(s, proposal) then Err(AccountNotInitialized)
    else if VoteAddress(proposal, voter) in s.accounts then Err(AccountAlreadyInUse)
    else
      var p := ProposalAt(s, proposal);
      if p.executed then Err(ProposalAlreadyExecuted)
      else if Tally(p, approve) + 1 > U64_MAX then Err(ArithmeticOverflow)
      else
        var p' := if approve then p.(yesVotes := p.yesVotes + 1) else p.(noVotes := p.noVotes + 1);
        Ok(s.(accounts := s.accounts[proposal := ProposalAccount(p')][VoteAddress(proposal, voter) := VoteRecord]))
  }

  /** The conditions under which the payout of `execute_proposal` is attempted, as checked in order. */
  predicate Passes(p: Proposal, recipient: Address)
  {
    !p.executed && p.yesVotes > p.noVotes && recipient == p.recipientWallet
  }

  /**
   `execute_proposal` as the program declares it: the proposal and the
   campaign are loaded independently, and the treasury paid out of is the one
   derived from the campaign PASSED IN, which nothing ties to the proposal's
   own campaign. Then: ProposalAlreadyExecuted if executed, VoteNotPassed
   unless yes > no, InvalidRecipient unless the recipient is the locked one;
   then the transfer of the proposal's amount, and `executed` is set.
   */
  function ExecuteProposalAsWritten(s: State, proposal: Address, campaign: Address, recipient: Address): (r: Result<State>)
    ensures r.Ok? <==>
              && IsProposal(s, proposal)
              && IsCampaign(s, campaign)
              && Passes(ProposalAt(s, proposal), recipient)
              && Balance(s, TreasuryOf(campaign)) >= ProposalAt(s, proposal).amount
              && (recipient == TreasuryOf(campaign) ||
                  Balance(s, recipient) + ProposalAt(s, proposal).amount <= U64_MAX)
    ensures !IsProposal(s, proposal) || !IsCampaign(s, campaign) ==> r == Err(AccountNotInitialized)
    ensures IsProposal(s, proposal) && IsCampaign(s, campaign) ==>
              var p := ProposalAt(s, proposal);
              && (p.executed ==> r == Err(ProposalAlreadyExecuted))
              && (!p.executed && p.yesVotes <= p.noVotes ==> r == Err(VoteNotPassed))
              && (!p.executed && p.yesVotes > p.noVotes && recipient != p.recipientWallet ==> r == Err(InvalidRecipient))
              && (Passes(p, recipient) && Balance(s, TreasuryOf(campaign)) < p.amount ==> r == Err(InsufficientFunds))
    ensures r.Ok? ==>
              && IsProposal(r.value, proposal)
              && ProposalAt(r.value, proposal) == ProposalAt(s, proposal).(executed := true)
              && RecordsAgreeOutside(s, r.value, {proposal})
              && BalancesAgreeOutside(s, r.value, {TreasuryOf(campaign), recipient})
              && (recipient != TreasuryOf(campaign) ==>
                    && Balance(r.value, TreasuryOf(campaign)) == Balance(s, TreasuryOf(campaign)) - ProposalAt(s, proposal).amount
                    && Balance(r.value, recipient) == Balance(s, recipient) + ProposalAt(s, proposal).amount)
              && (recipient == TreasuryOf(campaign) ==> Balance(r.value, recipient) == Balance(s, recipient))
  {
    if !IsProposal(s, proposal) || !IsCampaign(s, campaign) then Err(AccountNotInitialized)
    else
      var p := ProposalAt(s, proposal);
      if p.executed then Err(ProposalAlreadyExecuted)
      else if !(p.yesVotes > p.noVotes) then Err(VoteNotPassed)
      else if recipient != p.recipientWallet then Err(InvalidRecipient)
      else
        var paid :- Transfer(s, TreasuryOf(campaign), recipient, p.amount);
        Ok(paid.(accounts := paid.accounts[proposal := ProposalAccount(p.(executed := true))]))
  }

  /**
   `execute_proposal` with the proposal bound to its own campaign (the
   `has_one = campaign` account constraint the program evidently intends):
   after both accounts are loaded, a campaign other than the proposal's fails
   with CampaignMismatch, so the payout always leaves the treasury of the
   proposal's own campaign. The handler's checks follow in the program's
   order; on success exactly `amount` moves from that treasury to the locked
   recipient, `executed` becomes true and nothing else changes.
   */
  function ExecuteProposal(s: State, proposal: Address, campaign: Address, recipient: Address): (r: Result<State>)
    ensures r.Ok? <==>
              && IsProposal(s, proposal)
              && ProposalAt(s, proposal).campaign == campaign
              && IsCampaign(s, campaign)
              && Passes(ProposalAt(s, proposal), recipient)
              && Balance(s, TreasuryOf(campaign)) >= ProposalAt(s, proposal).amount
              && (recipient == TreasuryOf(campaign) ||
                  Balance(s, recipient) + ProposalAt(s, proposal).amount <= U64_MAX)
    ensures !IsProposal(s, proposal) || !IsCampaign(s, campaign) ==> r == Err(AccountNotInitialized)
    ensures IsProposal(s, proposal) && IsCampaign(s, campaign) ==>
              var p := ProposalAt(s, proposal);
              && (p.campaign != campaign ==> r == Err(CampaignMismatch))
              && (p.campaign == campaign && p.executed ==> r == Err(ProposalAlreadyExecuted))
              && (p.campaign == campaign && !p.executed && p.yesVotes <= p.noVotes ==> r == Err(VoteNotPassed))
              && (p.campaign == campaign && !p.executed && p.yesVotes > p.noVotes && recipient != p.recipientWallet ==>
                    r == Err(InvalidRecipient))
              && (p.campaign == campaign && Passes(p, recipient) && Balance(s, TreasuryOf(campaign)) < p.amount ==>
                    r == Err(InsufficientFunds))
    ensures r.Ok? ==>
              var p := ProposalAt(s, proposal);
              var vault := TreasuryOf(p.campaign);
              && IsProposal(r.value, proposal)
              && ProposalAt(r.value, proposal) == p.(executed := true)
              && RecordsAgreeOutside(s, r.value, {proposal})
              && BalancesAgreeOutside(s, r.value, {vault, recipient})
              && (recipient != vault ==>
                    && Balance(r.value, vault) == Balance(s, vault) - p.amount
                    && Balance(r.value, recipient) == Balance(s, recipient) + p.amount)
              && (recipient == vault ==> Balance(r.value, vault) == Balance(s, vault))
  {
    if IsProposal(s, proposal) && IsCampaign(s, campaign) && ProposalAt(s, proposal).campaign != campaign then
      Err(CampaignMismatch)
    else
      ExecuteProposalAsWritten(s, proposal, campaign, recipient)
  }

  /** One instruction, with the accounts and arguments its caller supplies. */
  datatype Instruction =
    | Initialize(admin: Signer, newCampaign: Signer, targetAmount: U64)
    | Donation(campaign: Address, donor: Signer, amount: U64)
    | Propose(campaign: Address, proposer: Signer, recipientWallet: Address,
              recipientIdentityHash: IdentityHash, amount: U64)
    | Ballot(proposal: Address, voter: Signer, approve: bool)
    | Execute(proposal: Address, campaign: Address, recipient: Address)

  /**
   Which `execute_proposal` the program runs: the one it declares, or the one
   with the proposal bound to its own campaign. The other four instructions
   are the same in both.
   */
  datatype Variant = AsWritten | Corrected

  function Step(v: Variant, s: State, ix: Instruction): Result<State>
  {
    match ix
    case Initialize(admin, campaign, target) => InitializeCampaign(s, admin, campaign, target)
    case Donation(campaign, donor, amount) => Donate(s, campaign, donor, amount)
    case Propose(campaign, proposer, wallet, hash, amount) => CreateProposal(s, campaign, proposer, wallet, hash, amount)
    case Ballot(proposal, voter, approve) => Vote(s, proposal, voter, approve)
    case Execute(proposal, campaign, recipient) =>
      if v == AsWritten then ExecuteProposalAsWritten(s, proposal, campaign, recipient)
      else ExecuteProposal(s, proposal, campaign, recipient)
  }

  /** The ledger after submitting `ix`: the new state if it succeeds, the old one untouched if it fails. */
  function Apply(v: Variant, s: State, ix: Instruction): State
  {
    match Step(v, s, ix)
    case Ok(t) => t
    case Err(_) => s
  }

  /** A campaign keypair can be initialised once: a second call at the same address fails. */
  lemma InitializeOnlyOnce(s: State, admin: Signer, campaign: Signer, target: U64, admin': Signer, target': U64)
    requires InitializeCampaign(s, admin, campaign, target).Ok?
    ensures InitializeCampaign(InitializeCampaign(s, admin, campaign, target).value, admin', campaign, target')
            == Err(AccountAlreadyInUse)
  {
  }

  /** One proposal per (campaign, proposer): a second proposal by the same proposer fails, whatever its terms. */
  lemma ProposeOnlyOnce(
    s: State, campaign: Address, proposer: Signer, wallet: Address, hash: IdentityHash, amount: U64,
    wallet': Address, hash': IdentityHash, amount': U64)
    requires CreateProposal(s, campaign, proposer, wallet, hash, amount).Ok?
    ensures CreateProposal(CreateProposal(s, campaign, proposer, wallet, hash, amount).value,
                           campaign, proposer, wallet', hash', amount') == Err(AccountAlreadyInUse)
  {
  }

  /** One vote per (proposal, voter): a second vote by the same voter fails, whichever way it goes. */
  lemma VoteOnlyOnce(s: State, proposal: Address, voter: Signer, approve: bool, approve': bool)
    requires Vote(s, proposal, voter, approve).Ok?
    ensures Vote(Vote(s, proposal, voter, approve).value, proposal, voter, approve') == Err(AccountAlreadyInUse)
  {
  }

  /**
   After a successful execution every further execution of the proposal
   fails, in either variant: with ProposalAlreadyExecuted when it names the
   same campaign, and with some error whatever campaign it names. Every
   further vote on it fails too.
   */
  lemma ExecuteOnlyOnce(
    v: Variant, s: State, proposal: Address, campaign: Address, recipient: Address,
    campaign': Address, recipient': Address, voter: Signer, approve: bool)
    requires Step(v, s, Execute(proposal, campaign, recipient)).Ok?
    ensures var t := Step(v, s, Execute(proposal, campaign, recipient)).value;
      && Step(v, t, Execute(proposal, campaign', recipient')).Err?
      && Step(v, t, Execute(proposal, campaign, recipient')) == Err(ProposalAlreadyExecuted)
      && Vote(t, proposal, voter, approve).Err?
  {
  }
}
