# charity_fund — a Dafny model of the on-chain program

The charity-fund program keeps donated lamports in a treasury for each campaign and pays them out through proposals that are put to a vote. It has three kinds of record and one lamport account per campaign:

- a campaign, at a fresh keypair address;
- its treasury, at the program-derived address `["treasury", campaign]`;
- a proposal, at `["proposal", campaign, proposer]`;
- a vote record, at `["vote", proposal, voter]`.

It has five instructions: `initialize_campaign`, `donate`, `create_proposal`, `vote` and `execute_proposal`.

The model is a functional state machine. A ledger `State` has two parts: a map from addresses to the program's records, and a map from addresses to `u64` lamport balances. Each instruction is a pure function `State -> Result<State>`. An error carries no state, so a failed instruction changes nothing. This is the runtime's all-or-nothing execution.

Each instruction runs in two stages, in this order:

1. The framework's account validation, in declaration order. An `Account<…>` whose address does not hold a record of the declared kind gives `AccountNotInitialized` in the model. The framework itself tells several such failures apart (see Left out); the model merges them into this one error. An `init` account whose address is already in use gives `AccountAlreadyInUse`; `init` accounts are created only after the other accounts are loaded.
2. The handler's `require!` checks and effects, in the program's order.

The `init` constraints are modelled as insert-if-absent on the derived address. That is what guarantees one proposal per (campaign, proposer) and one vote per (proposal, voter).

Files:

- `ledger.dfy` (module `Ledger`):
  - addresses, where `Derive` is injective and never yields a keypair address, and signers are keypair addresses;
  - `u64` bounds;
  - the record kinds and the errors;
  - the system-program `Transfer`.
- `charity_fund.dfy` (module `CharityFund`):
  - the five instructions, plus the as-written `execute_proposal` (see Findings);
  - the `Instruction` dispatch `Step` and `Apply`, for a `Variant`: `AsWritten` runs `execute_proposal` as the program declares it, and `Corrected` runs it with the proposal bound to its campaign. The other four instructions are the same in both;
  - the lemmas that each `init` guard allows only one success.
- `invariants.dfy` (module `Invariants`): the invariant of reachable states, and its preservation by every instruction. The invariant says:
  - records sit at their derived addresses;
  - every campaign has its treasury and is active;
  - `yes_votes + no_votes` equals the number of vote records on the proposal.
- `traces.dfy` (module `Traces`): runs of instructions. It proves, for both variants:
  - lamport conservation for treasuries;
  - `total_donated` equals the sum of the donations;
  - a proposal executes at most once;
  - tallies match vote records in every reachable state.
- `findings.dfy` (module `CampaignBinding`): the campaign-binding defect of `execute_proposal`, shown on a scenario that is reachable from an empty ledger.

What the program does, and does not do:

- `donate` and `create_proposal` accept a zero amount.
- There is no deadline, no refund and no per-donor donation record.
- `is_active` is set only at initialisation and never cleared.
- The target is advisory.
- `create_proposal` checks neither the amount nor the campaign's activity.
- A vote record stores nothing, not even the choice.
- A double vote or a second proposal is rejected by the framework's "already in use" error, not by a dedicated error code.
- `execute_proposal` has no caller restriction.

## Model

| member | source | states |
|---|---|---|
| Ledger.Derive | programs/charity_fund/src/lib.rs:151-157 | a derived (treasury, proposal, vote) address is never a keypair address, so no signer can hold one |
| Ledger.DeriveInjective | programs/charity_fund/src/lib.rs:193-198 | two derivations give the same address exactly when their labels and seeds are equal |
| Ledger.Transfer | programs/charity_fund/src/lib.rs:35-43 | the lamport transfer succeeds iff the payer holds at least `amount` and the payee does not overflow `u64`; a short payer gives InsufficientFunds; on success the payer loses and the payee gains exactly `amount`, and no other balance or record changes |
| CharityFund.InitializeCampaign | programs/charity_fund/src/lib.rs:12-24 | succeeds iff neither the campaign address nor its derived treasury is in use, otherwise AccountAlreadyInUse; the new campaign has admin = signer, the given target, total_donated 0 and is_active true; the treasury record exists; nothing else changes |
| CharityFund.Donate | programs/charity_fund/src/lib.rs:27-47 | error precedence: not a campaign, then CampaignInactive when inactive, then InsufficientFunds; success iff active with enough funds and no `u64` overflow; then total_donated grows by exactly `amount`, the treasury `["treasury", campaign]` gains and the donor loses `amount`, admin/target/active are unchanged, and no other record or balance changes |
| CharityFund.CreateProposal | programs/charity_fund/src/lib.rs:50-71 | succeeds iff the campaign exists and `["proposal", campaign, proposer]` is unused (AccountAlreadyInUse otherwise); the new proposal stores campaign, proposer, recipient, identity hash and amount verbatim with zero tallies and executed false; nothing else changes |
| CharityFund.Vote | programs/charity_fund/src/lib.rs:73-88 | fails with AccountAlreadyInUse if the voter's vote record exists, else ProposalAlreadyExecuted once executed; on success exactly one tally grows by one (yes iff approve), every other proposal field is kept, the vote record now exists, and nothing else changes |
| CharityFund.ExecuteProposalAsWritten | programs/charity_fund/src/lib.rs:90-137 | the program as declared: AccountNotInitialized unless both accounts load, then ProposalAlreadyExecuted, VoteNotPassed unless yes > no, InvalidRecipient unless the recipient is the locked one, then InsufficientFunds when the passed campaign's treasury is short; success iff all pass and the recipient does not overflow; on success executed becomes true and the amount moves from the PASSED campaign's treasury to the recipient (no change when the recipient is that treasury), and nothing else changes |
| CharityFund.ExecuteProposal | programs/charity_fund/src/lib.rs:235-255 | corrected execution: checks in order campaign binding (CampaignMismatch), ProposalAlreadyExecuted, VoteNotPassed, InvalidRecipient, then InsufficientFunds; on success the amount moves from the treasury of the proposal's own campaign to the locked recipient, executed becomes true, all other fields, records and balances are unchanged |
| CharityFund.InitializeOnlyOnce | programs/charity_fund/src/lib.rs:143-158 | after a campaign is initialised, initialising the same address again fails with AccountAlreadyInUse |
| CharityFund.ProposeOnlyOnce | programs/charity_fund/src/lib.rs:189-199 | after a proposer's proposal on a campaign exists, a second one by the same proposer fails with AccountAlreadyInUse, whatever its terms |
| CharityFund.VoteOnlyOnce | programs/charity_fund/src/lib.rs:216-227 | after a voter votes on a proposal, a second vote by the same voter fails with AccountAlreadyInUse, either way |
| CharityFund.ExecuteOnlyOnce | programs/charity_fund/src/lib.rs:95-96 | in either variant, after a successful execution every further execution fails (ProposalAlreadyExecuted with the same campaign) and every further vote fails |
| Invariants.StepExtends | programs/charity_fund/src/lib.rs:16-21 | in either variant, no instruction removes a record or changes its kind; admin, target_amount and is_active of a campaign and the campaign, proposer, recipient, identity hash and amount of a proposal never change; totals and tallies only grow; executed is never cleared |
| Invariants.InitializePreservesInv | programs/charity_fund/src/lib.rs:143-158 | initialisation keeps the reachable-state invariant |
| Invariants.DonatePreservesInv | programs/charity_fund/src/lib.rs:31-44 | a donation keeps the reachable-state invariant |
| Invariants.ProposePreservesInv | programs/charity_fund/src/lib.rs:56-68 | creating a proposal keeps the invariant: the fresh proposal has no vote records and zero tallies |
| Invariants.VoteKeepsPlacement | programs/charity_fund/src/lib.rs:216-227 | the vote record a vote creates sits at the address derived from "vote", the proposal and the voter, and every older record stays well placed |
| Invariants.VoteKeepsTallies | programs/charity_fund/src/lib.rs:81-85 | after a vote, yes + no still equals the number of vote records on every proposal |
| Invariants.VotePreservesInv | programs/charity_fund/src/lib.rs:79-85 | a vote adds one vote record and one to one tally, keeping yes + no = number of vote records on every proposal |
| Invariants.ExecuteAsWrittenPreservesInv | programs/charity_fund/src/lib.rs:90-137 | the execution as declared keeps the reachable-state invariant, whichever campaign's treasury pays |
| Invariants.ExecutePreservesInv | programs/charity_fund/src/lib.rs:96-134 | the corrected execution keeps the reachable-state invariant |
| Invariants.StepPreservesInv | programs/charity_fund/src/lib.rs:73-88 | in either variant, every instruction, successful or failed, keeps the invariant: well-placed records, active campaigns with treasuries, tallies equal to vote-record counts |
| Traces.StepTreasuryBalance | programs/charity_fund/src/lib.rs:35-43 | in either variant, a single instruction changes a treasury's balance only by a donation to its campaign, an execution that names its campaign, or an execution that pays the treasury |
| Traces.CorrectedDisbursesOwnProposals | programs/charity_fund/src/lib.rs:112-131 | in the corrected variant, an execution that pays out of a campaign's treasury always executes a proposal of that campaign |
| Traces.TreasuryConservation | programs/charity_fund/src/lib.rs:114-131 | in either variant, after any run, treasury balance + amounts of the executions that named the campaign = starting balance + donations to the campaign + payouts whose recipient was the treasury |
| Traces.TotalDonatedTracksDonations | programs/charity_fund/src/lib.rs:44 | in either variant, after any run, an existing campaign's total_donated grew by exactly the sum of its successful donations |
| Traces.TreasuryMatchesTotals | programs/charity_fund/src/lib.rs:173-177 | in either variant, for an existing campaign, treasury balance minus total_donated changes only by executed payouts in and out |
| Traces.ExecutedStaysExecuted | programs/charity_fund/src/lib.rs:133-134 | in either variant, once a proposal is executed it stays executed through any run |
| Traces.ExecutesAtMostOnce | programs/charity_fund/src/lib.rs:95-96 | in either variant, in any run a proposal executes successfully at most once, and never if it was already executed |
| Traces.RunPreservesInv | programs/charity_fund/src/lib.rs:210-227 | in either variant, every run from an invariant state ends in an invariant state |
| Traces.TalliesMatchVoteRecords | programs/charity_fund/src/lib.rs:81-85 | in either variant, from a ledger without program records, after any run every proposal's yes + no equals the number of its vote records, and every campaign is active |
| Traces.DonateNeverInactive | programs/charity_fund/src/lib.rs:33 | in either variant, in any reachable ledger a donation is never rejected with CampaignInactive, because is_active is only ever set to true |
| CampaignBinding.AsWrittenPaysFromForeignTreasury | programs/charity_fund/src/lib.rs:240-248 | reachable counterexample: the first campaign's passed proposal, executed against the second campaign, succeeds and empties the second campaign's treasury |
| CampaignBinding.BoundExecutionPaysFromOwnTreasury | programs/charity_fund/src/lib.rs:112-131 | in the same scenario the corrected execution rejects the foreign campaign with CampaignMismatch and pays only from the proposal's own treasury |
| CampaignBinding.BoundExecutionDebitsOnlyOwnTreasury | programs/charity_fund/src/lib.rs:236-248 | for every ledger, a successful corrected execution names the proposal's own campaign, and no other campaign's treasury loses lamports |

## Findings

| source | as written | input that shows it | evidently intended | confidence | as-written member | corrected member |
|---|---|---|---|---|---|---|
| programs/charity_fund/src/lib.rs:235-248 | the `ExecuteProposal` accounts load `proposal` and `campaign` independently and derive the treasury from `campaign`; nothing requires `proposal.campaign == campaign.key()` | two campaigns that have each received 100 lamports, and a proposal for 100 on the first with one yes vote; `execute_proposal` is called with the second campaign and its treasury | the payout leaves the treasury of the proposal's own campaign, as a `has_one = campaign` constraint would enforce | high that the constraint is missing; as declared, the program-owned treasury fails the `SystemAccount` owner check, so the payout is reachable only if that check admits the treasury; not executed | CampaignBinding.AsWrittenPaysFromForeignTreasury | CharityFund.ExecuteProposal |

`Step` runs either execution, selected by `Variant`. The invariants, conservation and at-most-once lemmas hold for both. `Traces.CorrectedDisbursesOwnProposals` adds that in the corrected variant a campaign's treasury pays out only for that campaign's own proposals.

## Left out

- Refund, deadlines and per-donor donation records are left out because the program has no such instruction, field or account.
- The `executor` account is left out because the program has no such account and no caller restriction on `execute_proposal`.
- How derived addresses are computed is not modelled. This covers SHA-256 over the seeds, the bump search and the off-curve test. `Derive` is an injective constructor that is disjoint from keypair addresses.
- Account ownership checks are not modelled. `initialize_campaign` creates the treasury with `init` and 8 bytes of space, so the program owns it. `execute_proposal` declares the treasury a `SystemAccount` and pays out of it through the system program. Read against those declarations, the `SystemAccount` owner check rejects the program-owned treasury, so every `execute_proposal` fails before its handler runs. The model assumes the payout transfer is permitted, and so describes the handler the program evidently intends to run.
- Account errors are merged. For an `Account<…>` the framework gives AccountNotInitialized only for an empty system-owned account, AccountDiscriminatorMismatch for a record of another kind, and AccountOwnedByWrongProgram for an account that another program owns. The model reports all three as AccountNotInitialized.
- Derived-address arguments are not modelled. `Instruction` carries no treasury, proposal or vote-record address: each one is computed from its seeds. So a caller who passes the wrong derived address cannot be expressed, and neither can the seeds-constraint error the framework gives for it (programs/charity_fund/src/lib.rs lines 154, 175, 193-198, 220-225 and 245).
- The following are not modelled: rent-exempt minimums, the lamports the payer spends to create accounts, transaction fees, `space`/`LEN` layout and discriminator serialisation. Balances change only through the transfers made by `donate` and `execute_proposal`.
- Lamports sent to a treasury by anything other than this program are not modelled. The conservation lemmas count only this program's instructions.
- The system program's treatment of the same account passed twice is not modelled. This covers admin equal to campaign, and a transfer to the payer itself; a self-transfer is modelled as a no-op.
- `u64` overflow of `total_donated += amount` and of the tallies is modelled as an aborting ArithmeticOverflow. This assumes overflow checks are enabled, because the build profile is not part of this model.
- The contents of `recipient_identity_hash` are left out. The hash is opaque and never inspected; it is stored verbatim as 32 bytes.
- Cross-program invocation is not modelled. A signer is a keypair address: the program never signs for its own derived addresses, except for the treasury inside its own payout transfer.
- Concurrency is not modelled. Instructions are applied one at a time, as the runtime serialises writes to the same account.
- The test file and scripts (`tests/charity_fund.ts`, `scripts/*.ts`) are left out. They do RPC, airdrops, keypair files and console I/O; there is no logic in them to model.
