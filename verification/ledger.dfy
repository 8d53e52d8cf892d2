/**
 The ledger substrate the charity-fund program runs on: account addresses
 (keypair keys and program-derived addresses), the three record kinds the
 program stores plus its lamport-only treasury, the errors an instruction can
 abort with, and the system-program lamport transfer.

 A ledger state is two maps: the records this program owns, by address, and
 the lamport balance of every address (absent means zero).
 */
module Ledger {

  const U64_MAX: int := 0xFFFF_FFFF_FFFF_FFFF

  /** An unsigned 64-bit quantity (`u64` in the program). */
  type U64 = x: int | 0 <= x <= U64_MAX

  type Byte = b: int | 0 <= b < 256

  /** The 32-byte recipient identity hash; opaque, stored verbatim, never inspected. */
  type IdentityHash = h: seq<Byte> | |h| == 32 witness seq(32, i => 0)

  /** Seed labels of the program-derived addresses the program uses. */
  datatype Label = TreasuryLabel | ProposalLabel | VoteLabel

  /**
   An account address. `Key` is an address backed by a keypair (a wallet, or
   the fresh keypair a campaign is created at); `Pda` is the address derived
   from a seed label and the addresses that follow it. Derived addresses lie
   off the key curve, so no keypair address is ever a derived one.
   */
  datatype Address = Key(id: nat) | Pda(kind: Label, seeds: seq<Address>)

  /** An address that can sign a transaction: only keypair addresses can. */
  type Signer = a: Address | a.Key? witness Key(0)

  /** The derived address for a seed label and its seed addresses. */
  function Derive(kind: Label, seeds: seq<Address>): (a: Address)
    ensures !a.Key?
  {
    Pda(kind, seeds)
  }

  /** Different seeds never derive the same address. */
  lemma DeriveInjective(l1: Label, k1: seq<Address>, l2: Label, k2: seq<Address>)
    ensures Derive(l1, k1) == Derive(l2, k2) <==> l1 == l2 && k1 == k2
  {
  }

  /** The treasury of a campaign: seeds `["treasury", campaign]`. */
  function TreasuryOf(campaign: Address): Address
  {
    Derive(TreasuryLabel, [campaign])
  }

  /** The proposal of a proposer on a campaign: seeds `["proposal", campaign, proposer]`. */
  function ProposalAddress(campaign: Address, proposer: Address): Address
  {
    Derive(ProposalLabel, [campaign, proposer])
  }

  /** The vote record of a voter on a proposal: seeds `["vote", proposal, voter]`. */
  function VoteAddress(proposal: Address, voter: Address): Address
  {
    Derive(VoteLabel, [proposal, voter])
  }

  /** `CampaignAccount`. */
  datatype Campaign = Campaign(admin: Address, targetAmount: U64, totalDonated: U64, isActive: bool)

  /** `ProposalAccount`. */
  datatype Proposal = Proposal(
    campaign: Address,
    proposer: Address,
    recipientWallet: Address,
    recipientIdentityHash: IdentityHash,
    amount: U64,
    yesVotes: U64,
    noVotes: U64,
    executed: bool)

  /**
   A record owned by the program. `VoteRecord` is `VoteAccount`, which holds no
   data (not even the choice); `Treasury` is the data-less account created for
   each campaign, which only holds lamports.
   */
  datatype Account =
    | CampaignAccount(campaign: Campaign)
    | ProposalAccount(proposal: Proposal)
    | VoteRecord
    | Treasury

  datatype State = State(accounts: map<Address, Account>, lamports: map<Address, U64>)

  /**
   Why an instruction aborts. The first four are the program's `CustomError`;
   the rest are raised by the framework and the runtime: an `init` account
   that is already in use, an `Account<…>` that does not hold a record of the
   expected kind, a transfer the payer cannot cover, a `u64` overflow, and a
   proposal passed with a campaign other than its own (see ExecuteProposal).
   */
  datatype Error =
    | CampaignInactive
    | ProposalAlreadyExecuted
    | VoteNotPassed
    | InvalidRecipient
    | AccountAlreadyInUse
    | AccountNotInitialized
    | InsufficientFunds
    | ArithmeticOverflow
    | CampaignMismatch

  /** The outcome of one instruction: the whole new state, or an error and no change at all. */
  datatype Result<+T> = Ok(value: T) | Err(error: Error) {
    predicate IsFailure() {
      Err?
    }

    function PropagateFailure<U>(): Result<U>
      requires Err?
    {
      Err(error)
    }

    function Extract(): T
      requires Ok?
    {
      value
    }
  }

  function Balance(s: State, a: Address): U64
  {
    if a in s.lamports then s.lamports[a] else 0
  }

  predicate IsCampaign(s: State, a: Address)
  {
    a in s.accounts && s.accounts[a].CampaignAccount?
  }

  function CampaignAt(s: State, a: Address): Campaign
    requires IsCampaign(s, a)
  {
    s.accounts[a].campaign
  }

  predicate IsProposal(s: State, a: Address)
  {
    a in s.accounts && s.accounts[a].ProposalAccount?
  }

  function ProposalAt(s: State, a: Address): Proposal
    requires IsProposal(s, a)
  {
    s.accounts[a].proposal
  }

  datatype Option<+T> = None | Some(value: T)

  /** The record at an address, if any. */
  function RecordAt(s: State, a: Address): Option<Account>
  {
    if a in s.accounts then Some(s.accounts[a]) else None
  }

  /** Every record outside `changed` is the same (present or absent) in both states. */
  ghost predicate RecordsAgreeOutside(s: State, t: State, changed: set<Address>)
  {
    forall a :: a !in changed ==> RecordAt(s, a) == RecordAt(t, a)
  }

  /** Every balance outside `changed` is the same in both states. */
  ghost predicate BalancesAgreeOutside(s: State, t: State, changed: set<Address>)
  {
    forall a :: a !in changed ==> Balance(s, a) == Balance(t, a)
  }

  /**
   The system program's transfer of `amount` lamports from `src` to `dst`:
   it fails when `src` holds fewer than `amount` lamports or when `dst` would
   exceed `u64`; otherwise `src` loses and `dst` gains exactly `amount`
   (a transfer to itself changes nothing), no other balance moves and no
   record changes.
   */
  function Transfer(s: State, src: Address, dst: Address, amount: U64): (r: Result<State>)
    ensures r.Ok? <==> Balance(s, src) >= amount && (src == dst || Balance(s, dst) + amount <= U64_MAX)
    ensures Balance(s, src) < amount ==> r == Err(InsufficientFunds)
    ensures r.Err? ==> r.error in {InsufficientFunds, ArithmeticOverflow}
    ensures r.Ok? ==> r.value.accounts == s.accounts && BalancesAgreeOutside(s, r.value, {src, dst})
    ensures r.Ok? && src != dst ==>
              Balance(r.value, src) == Balance(s, src) - amount && Balance(r.value, dst) == Balance(s, dst) + amount
    ensures r.Ok? && src == dst ==> Balance(r.value, src) == Balance(s, src)
  {
    var from := Balance(s, src);
    if from < amount then Err(InsufficientFunds)
    else
      var debited := s.(lamports := s.lamports[src := from - amount]);
      var to := Balance(debited, dst);
      if to + amount > U64_MAX then Err(ArithmeticOverflow)
      else Ok(debited.(lamports := debited.lamports[dst := to + amount]))
  }
}
