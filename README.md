# Carbonx contracts and client logic, modelled in Dafny

Carbonx is a carbon-credit platform on Algorand. This project models its
on-chain applications and two pieces of its browser client:

- **IssuerRegistry** (`issuer_registry.dfy`): issuers register themselves and
  an admin approves or revokes them. A counter tracks the approved issuers
  and a query reports status 0, 1 or 2.
- **DaoIssuerRegistry** (`dao_issuer_registry.dfy`): the same registry plus
  voting. Holders of governance asset 1008 vote for an issuer. A box keyed by
  voter‖issuer stops double votes. An issuer with enough votes can be approved
  by anyone.
- **BondingMarketplace** (`bonding_marketplace.dfy`): credits are tracked per
  account. The creator mints, holders retire, and anyone buys at a linear
  bonding-curve price, `100_000 + total_credits` microAlgos per credit.
- **TokenMarketplace** (`token_marketplace.dfy`): sells a real asset (CXT).
  A one-shot `init_asset` opts the application in. Each buy sends the asset
  to the buyer with an inner transfer.
- **RetirementManager** (`retirement_manager.dfy`): a supply tally and a
  retirement tally, with `retired <= supply`.
- **CarbonX** (`carbon_x.dfy`): a minimal registry holding a project name, a
  live credit tally and a retired credit tally.
- **AutoOptIn** (`auto_opt_in.dfy`): the client procedure `ensureOptedIn`.
  It checks, guards on balance, writes at most once, re-checks at most twice,
  and ends in optimistic success.
- **StateReader** (`state_reader.dfy`): the client loops that decode an
  application's global or local key/value state into an object, plus the
  indexer lookup of an asset balance.

`avm.dfy` holds the vocabulary the contracts share:
- `UInt64` is bounded by 2^64 − 1, and arithmetic past it aborts the call.
- An address is 32 bytes.
- Local state reads default to 0.
- Grouped and inner transactions are records.
- `Result` is either the new state or the reason the call was rejected.

Each contract has the same shape:

- A `State` datatype holds the global state, the per-account local state
  (`map`s read with default 0), the set of accounts opted in, boxes, and a
  log of inner transfers.
- For each ABI method there is a function from the old state to
  `Result<State, Error>`. An `assert` that fails, a `UInt64` overflow or
  underflow, or a write to the local state of an account that has not opted
  in gives `Err`, and nothing changes. The checks run in the order the source
  runs them.
- `Step`/`After`/`Run` replay any sequence of calls. A ghost `Inv` states the
  contract's invariant, and lemmas show that every call, and so every run,
  preserves it.
- A class has the contract's fields. Each state-changing method updates them
  in place and is proved to commit exactly the state the function specifies,
  or to report the specified error and leave everything as it was. The
  read-only getters state what they return.

The repository's prose description and its code disagree in a few places.
The model follows the code:
- **Insufficient-balance guard.** `ensureOptedIn` refuses only when the
  balance is below 101000 microAlgos. A balance of exactly 101000 passes
  (autoOptIn.js:31).
- **State decoding.** An entry whose `type` is not 2 is decoded as bytes; it
  is not skipped. An `atob` failure on any entry makes the whole read return
  the empty object; it does not skip that entry (algorand.js:100-110).
- **Node and indexer.** The ledger client talks to a single node and a single
  indexer. It has no failover.
- **DAO threshold.** DAO approval needs 1 vote, although the error message
  says 5 or more.

## Model

| member | source | states |
|---|---|---|
| IssuerRegistry.Create | projects/Carbonx/smart_contracts/issuer_registry/contract.py:23-27 | the admin is the creator, the count is 0, no account is registered or approved, and the invariant holds |
| IssuerRegistry.OpenLocalState | projects/Carbonx/smart_contracts/issuer_registry/contract.py:29-32 | the bare opt-in succeeds exactly for an account not yet opted in, and only adds it to the opted-in set |
| IssuerRegistry.Register | projects/Carbonx/smart_contracts/issuer_registry/contract.py:34-42 | fails with "Already registered" for a registered caller; succeeds exactly for an unregistered, opted-in caller; sets only the caller's flag to 1 |
| IssuerRegistry.Approve | projects/Carbonx/smart_contracts/issuer_registry/contract.py:44-56 | non-admins are refused; succeeds exactly for a registered, unapproved, opted-in account without count overflow; sets that flag to 1 and the count to count + 1, nothing else |
| IssuerRegistry.Revoke | projects/Carbonx/smart_contracts/issuer_registry/contract.py:58-68 | non-admins are refused; succeeds exactly on an approved, opted-in account; clears that flag and decrements the count, nothing else |
| IssuerRegistry.IssuerStatus | projects/Carbonx/smart_contracts/issuer_registry/contract.py:70-85 | the status is 0, 1 or 2; it is 0 iff the account is unregistered, and 2 iff it is registered with approved flag 1 |
| IssuerRegistry.StepPreservesInv | projects/Carbonx/smart_contracts/issuer_registry/contract.py:44-68 | every accepted call keeps approved_count equal to the number of accounts whose approved flag is 1, keeps approved ⇒ registered, and keeps local state on opted-in accounts only |
| IssuerRegistry.RunPreservesInv | projects/Carbonx/smart_contracts/issuer_registry/contract.py:44-68 | the invariant holds after any sequence of calls |
| IssuerRegistry.RevokeNeverUnderflows | projects/Carbonx/smart_contracts/issuer_registry/contract.py:65-68 | under the invariant, the decrement in revoke never underflows |
| IssuerRegistry.RegistrationIsPermanent | projects/Carbonx/smart_contracts/issuer_registry/contract.py:40-68 | no call resets a registered flag |
| IssuerRegistry.RevokedIssuerCanBeReapproved | projects/Carbonx/smart_contracts/issuer_registry/contract.py:44-68 | after a revoke, the account is still registered and the admin can approve it again |
| IssuerRegistry.OnlyAdminChangesApprovals | projects/Carbonx/smart_contracts/issuer_registry/contract.py:44-68 | an accepted call by a non-admin changes no approved flag and not the count |
| IssuerRegistry.Registry.constructor | projects/Carbonx/smart_contracts/issuer_registry/contract.py:23-27 | the new object's state is `Create(sender)` |
| IssuerRegistry.Registry.OptIn | projects/Carbonx/smart_contracts/issuer_registry/contract.py:29-32 | commits `OpenLocalState`, or reports its error and changes nothing; keeps the invariant |
| IssuerRegistry.Registry.RegisterIssuer | projects/Carbonx/smart_contracts/issuer_registry/contract.py:34-42 | commits `Register`, or reports its error and changes nothing; keeps the invariant |
| IssuerRegistry.Registry.ApproveIssuer | projects/Carbonx/smart_contracts/issuer_registry/contract.py:44-56 | commits `Approve`, or reports its error and changes nothing; keeps the invariant |
| IssuerRegistry.Registry.RevokeIssuer | projects/Carbonx/smart_contracts/issuer_registry/contract.py:58-68 | commits `Revoke`, or reports its error and changes nothing; keeps the invariant |
| IssuerRegistry.Registry.GetIssuerStatus | projects/Carbonx/smart_contracts/issuer_registry/contract.py:70-85 | returns 0 iff unregistered, and 2 iff registered and approved |
| IssuerRegistry.Registry.GetApprovedCount | projects/Carbonx/smart_contracts/issuer_registry/contract.py:87-90 | returns the number of accounts whose approved flag is 1 |
| DaoIssuerRegistry.BoxKey | projects/Carbonx/projects/Carbonx/smart_contracts/issuer_registry/contract.py:61-63 | the vote box key is 64 bytes: the voter's 32 bytes followed by the issuer's |
| DaoIssuerRegistry.BoxKeyInjective | projects/Carbonx/projects/Carbonx/smart_contracts/issuer_registry/contract.py:61-65 | distinct (voter, issuer) pairs get distinct boxes |
| DaoIssuerRegistry.Create | projects/Carbonx/projects/Carbonx/smart_contracts/issuer_registry/contract.py:25-29 | the admin is the creator, the count is 0, there are no boxes, and the invariant holds |
| DaoIssuerRegistry.OpenLocalState | projects/Carbonx/projects/Carbonx/smart_contracts/issuer_registry/contract.py:31-34 | the opt-in succeeds exactly for an account not yet opted in |
| DaoIssuerRegistry.Register | projects/Carbonx/projects/Carbonx/smart_contracts/issuer_registry/contract.py:36-45 | fails for a registered caller; on success, sets the caller's registered flag to 1 and its vote_count to 0, and nothing else |
| DaoIssuerRegistry.CastVote | projects/Carbonx/projects/Carbonx/smart_contracts/issuer_registry/contract.py:47-72 | fails without a positive balance of asset 1008; succeeds exactly for a registered, unapproved issuer the sender has not voted for; writes box voter‖issuer and raises the issuer's vote_count by exactly 1 |
| DaoIssuerRegistry.Approve | projects/Carbonx/projects/Carbonx/smart_contracts/issuer_registry/contract.py:74-93 | succeeds exactly when the sender is the admin or the account has ≥ 1 vote, and the account is registered, unapproved and opted in; sets the flag and increments the count |
| DaoIssuerRegistry.Revoke | projects/Carbonx/projects/Carbonx/smart_contracts/issuer_registry/contract.py:95-105 | admin only, on an approved account; clears the flag and decrements the count |
| DaoIssuerRegistry.VotePreservesInv | projects/Carbonx/projects/Carbonx/smart_contracts/issuer_registry/contract.py:61-72 | after a vote, every issuer's vote_count still equals the number of boxes ending in its address |
| DaoIssuerRegistry.RegisterPreservesInv | projects/Carbonx/projects/Carbonx/smart_contracts/issuer_registry/contract.py:42-45 | resetting vote_count to 0 at registration agrees with the boxes, since an unregistered account has no votes |
| DaoIssuerRegistry.StepPreservesInv | projects/Carbonx/projects/Carbonx/smart_contracts/issuer_registry/contract.py:36-105 | every call keeps these facts: the count equals the approved set, approved ⇒ registered, vote_count equals the votes cast, and an unregistered account has no votes |
| DaoIssuerRegistry.RunPreservesInv | projects/Carbonx/projects/Carbonx/smart_contracts/issuer_registry/contract.py:36-105 | the invariant holds after any sequence of calls |
| DaoIssuerRegistry.RunKeepsBoxes | projects/Carbonx/projects/Carbonx/smart_contracts/issuer_registry/contract.py:64-68 | no call deletes a vote box |
| DaoIssuerRegistry.VoteIsFinal | projects/Carbonx/projects/Carbonx/smart_contracts/issuer_registry/contract.py:61-68 | once V has voted for I, box V‖I exists, and every later vote by V for I fails, after any calls |
| DaoIssuerRegistry.VoteCountsDistinctVoters | projects/Carbonx/projects/Carbonx/smart_contracts/issuer_registry/contract.py:61-72 | after a vote, the issuer's vote_count equals the number of distinct voters for it |
| DaoIssuerRegistry.RevocationUndoneByAnySender | projects/Carbonx/projects/Carbonx/smart_contracts/issuer_registry/contract.py:81-105 | votes are never reset, so any sender can approve a revoked account again when it has ≥ 1 vote |
| DaoIssuerRegistry.NoVotesMeansAdminOnly | projects/Carbonx/projects/Carbonx/smart_contracts/issuer_registry/contract.py:81-86 | only the admin can approve an account with no votes |
| DaoIssuerRegistry.Registry.constructor | projects/Carbonx/projects/Carbonx/smart_contracts/issuer_registry/contract.py:25-29 | the new object's state is `Create(sender)` |
| DaoIssuerRegistry.Registry.OptIn | projects/Carbonx/projects/Carbonx/smart_contracts/issuer_registry/contract.py:31-34 | commits `OpenLocalState`, or reports its error and changes nothing; keeps the invariant |
| DaoIssuerRegistry.Registry.RegisterIssuer | projects/Carbonx/projects/Carbonx/smart_contracts/issuer_registry/contract.py:36-45 | commits `Register`, or reports its error and changes nothing; keeps the invariant |
| DaoIssuerRegistry.Registry.Vote | projects/Carbonx/projects/Carbonx/smart_contracts/issuer_registry/contract.py:47-72 | commits `CastVote`, or reports its error and changes nothing; keeps the invariant |
| DaoIssuerRegistry.Registry.ApproveIssuer | projects/Carbonx/projects/Carbonx/smart_contracts/issuer_registry/contract.py:74-93 | commits `Approve`, or reports its error and changes nothing; keeps the invariant |
| DaoIssuerRegistry.Registry.RevokeIssuer | projects/Carbonx/projects/Carbonx/smart_contracts/issuer_registry/contract.py:95-105 | commits `Revoke`, or reports its error and changes nothing; keeps the invariant |
| DaoIssuerRegistry.Registry.GetIssuerStatus | projects/Carbonx/projects/Carbonx/smart_contracts/issuer_registry/contract.py:107-122 | the same 0/1/2 rule as the plain registry |
| DaoIssuerRegistry.Registry.GetApprovedCount | projects/Carbonx/projects/Carbonx/smart_contracts/issuer_registry/contract.py:124-127 | returns the number of approved accounts |
| BondingMarketplace.Create | projects/Carbonx/projects/Carbonx/smart_contracts/carbon_marketplace/contract.py:21-25 | both tallies are 0, every balance reads 0, and the invariant holds |
| BondingMarketplace.OpenLocalState | projects/Carbonx/projects/Carbonx/smart_contracts/carbon_marketplace/contract.py:27-30 | the opt-in succeeds exactly for an account not yet opted in |
| BondingMarketplace.Mint | projects/Carbonx/projects/Carbonx/smart_contracts/carbon_marketplace/contract.py:32-43 | creator only, amount > 0; adds `amount` to total_credits and to the caller's balance, and nothing else |
| BondingMarketplace.Retire | projects/Carbonx/projects/Carbonx/smart_contracts/carbon_marketplace/contract.py:45-60 | requires amount > 0 and a caller balance ≥ amount; moves `amount` from the caller's balance and from total_credits into retired_credits |
| BondingMarketplace.CurrentPrice | projects/Carbonx/projects/Carbonx/smart_contracts/carbon_marketplace/contract.py:93-98 | the price is 100000 + total_credits, and aborts exactly when that overflows |
| BondingMarketplace.Buy | projects/Carbonx/projects/Carbonx/smart_contracts/carbon_marketplace/contract.py:62-91 | succeeds exactly when amount > 0, the price and cost do not overflow, the payment goes to the application and pays at least price × amount, and no tally overflows; adds `amount` to the caller and to total_credits |
| BondingMarketplace.StepPreservesInv | projects/Carbonx/projects/Carbonx/smart_contracts/carbon_marketplace/contract.py:41-43 | every call keeps total_credits equal to the sum of all balances |
| BondingMarketplace.RunPreservesInv | projects/Carbonx/projects/Carbonx/smart_contracts/carbon_marketplace/contract.py:58-60 | the invariant holds after any sequence of calls |
| BondingMarketplace.RetireNeverUnderflows | projects/Carbonx/projects/Carbonx/smart_contracts/carbon_marketplace/contract.py:56-59 | under the invariant, the total_credits decrement in retire never underflows |
| BondingMarketplace.RetiredNeverDecreases | projects/Carbonx/projects/Carbonx/smart_contracts/carbon_marketplace/contract.py:59-60 | retired_credits never decreases over any calls |
| BondingMarketplace.BuyRaisesPriceByAmount | projects/Carbonx/projects/Carbonx/smart_contracts/carbon_marketplace/contract.py:88-98 | after a buy of `amount`, the price is exactly `amount` higher |
| BondingMarketplace.UnderpaymentRejected | projects/Carbonx/projects/Carbonx/smart_contracts/carbon_marketplace/contract.py:77-86 | a payment below price × amount is rejected |
| BondingMarketplace.Marketplace.constructor | projects/Carbonx/projects/Carbonx/smart_contracts/carbon_marketplace/contract.py:21-25 | the new object's state is `Create(creator, appAddress)` |
| BondingMarketplace.Marketplace.OptIn | projects/Carbonx/projects/Carbonx/smart_contracts/carbon_marketplace/contract.py:27-30 | commits `OpenLocalState`, or reports its error and changes nothing |
| BondingMarketplace.Marketplace.MintCredits | projects/Carbonx/projects/Carbonx/smart_contracts/carbon_marketplace/contract.py:32-43 | commits `Mint`, or reports its error and changes nothing; keeps the invariant |
| BondingMarketplace.Marketplace.RetireCredits | projects/Carbonx/projects/Carbonx/smart_contracts/carbon_marketplace/contract.py:45-60 | commits `Retire`, or reports its error and changes nothing; retired_credits does not decrease |
| BondingMarketplace.Marketplace.BuyCredits | projects/Carbonx/projects/Carbonx/smart_contracts/carbon_marketplace/contract.py:62-91 | commits `Buy`, or reports its error and changes nothing; keeps the invariant |
| BondingMarketplace.Marketplace.GetCurrentPrice | projects/Carbonx/projects/Carbonx/smart_contracts/carbon_marketplace/contract.py:93-98 | returns 100000 + total_credits, or the overflow abort |
| BondingMarketplace.Marketplace.GetCredits | projects/Carbonx/projects/Carbonx/smart_contracts/carbon_marketplace/contract.py:100-103 | returns 0 for an account without a recorded balance, and the balance otherwise |
| BondingMarketplace.Marketplace.GetTotalCredits | projects/Carbonx/projects/Carbonx/smart_contracts/carbon_marketplace/contract.py:105-108 | returns the sum of all balances |
| BondingMarketplace.Marketplace.GetRetiredCredits | projects/Carbonx/projects/Carbonx/smart_contracts/carbon_marketplace/contract.py:110-113 | returns retired_credits |
| TokenMarketplace.Create | projects/Carbonx/smart_contracts/carbon_marketplace/contract.py:19-24 | total_credits, retired_credits and cxt_asset_id are 0, and no transfer has been made |
| TokenMarketplace.InitialiseAsset | projects/Carbonx/smart_contracts/carbon_marketplace/contract.py:26-43 | creator only, and only while cxt_asset_id is 0; succeeds exactly when the sender is the creator, the id is unset and asset ≠ 0 (the opt-in transfer of the non-existent asset 0 fails); stores the id and logs one zero-amount transfer of the asset to the application |
| TokenMarketplace.Buy | projects/Carbonx/smart_contracts/carbon_marketplace/contract.py:45-73 | requires a payment to the application, amount > 0 and an initialised asset; logs a transfer of exactly `amount` of the stored asset to the sender and adds `amount` to total_credits |
| TokenMarketplace.Deposit | projects/Carbonx/smart_contracts/carbon_marketplace/contract.py:75-87 | requires the creator, a transfer to the application and the stored asset id; changes nothing |
| TokenMarketplace.StepPreservesInv | projects/Carbonx/smart_contracts/carbon_marketplace/contract.py:66-73 | every call keeps these facts: total_credits equals the amount sent out, every transfer is of the stored asset, and retired_credits stays 0 |
| TokenMarketplace.RunPreservesInv | projects/Carbonx/smart_contracts/carbon_marketplace/contract.py:14-24 | the invariant, including retired_credits = 0, holds after any sequence of calls |
| TokenMarketplace.AssetIdIsStable | projects/Carbonx/smart_contracts/carbon_marketplace/contract.py:33-36 | once set, cxt_asset_id never changes |
| TokenMarketplace.InitAssetAtMostOnce | projects/Carbonx/smart_contracts/carbon_marketplace/contract.py:33-34 | after a successful init_asset, every later init_asset fails |
| TokenMarketplace.BuyIgnoresPaymentAmount | projects/Carbonx/smart_contracts/carbon_marketplace/contract.py:61-64 | the outcome of a buy does not depend on the amount paid |
| TokenMarketplace.Marketplace.constructor | projects/Carbonx/smart_contracts/carbon_marketplace/contract.py:19-24 | the new object's state is `Create(creator, appAddress)` |
| TokenMarketplace.Marketplace.InitAsset | projects/Carbonx/smart_contracts/carbon_marketplace/contract.py:26-43 | commits `InitialiseAsset`, or reports its error and changes nothing |
| TokenMarketplace.Marketplace.BuyCredits | projects/Carbonx/smart_contracts/carbon_marketplace/contract.py:45-73 | commits `Buy`, or reports its error and changes nothing |
| TokenMarketplace.Marketplace.MintCredits | projects/Carbonx/smart_contracts/carbon_marketplace/contract.py:75-87 | reports `Deposit`'s verdict and changes nothing |
| TokenMarketplace.Marketplace.GetAssetId | projects/Carbonx/smart_contracts/carbon_marketplace/contract.py:89-92 | returns cxt_asset_id |
| TokenMarketplace.Marketplace.GetTotalCredits | projects/Carbonx/smart_contracts/carbon_marketplace/contract.py:94-97 | returns the total amount sent out by inner transfers |
| TokenMarketplace.Marketplace.GetRetiredCredits | projects/Carbonx/smart_contracts/carbon_marketplace/contract.py:99-102 | returns 0 |
| RetirementManager.Create | projects/Carbonx/smart_contracts/retirement_manager/contract.py:17-21 | both tallies start at 0 |
| RetirementManager.SupplyAdded | projects/Carbonx/smart_contracts/retirement_manager/contract.py:23-35 | creator only and amount > 0; raises total_supply by `amount` and changes nothing else |
| RetirementManager.Retire | projects/Carbonx/smart_contracts/retirement_manager/contract.py:37-51 | creator only; succeeds exactly when amount > 0 and total_supply − retired ≥ amount; raises retired_credits by `amount` and leaves total_supply unchanged |
| RetirementManager.AvailableSupply | projects/Carbonx/smart_contracts/retirement_manager/contract.py:58-61 | available + retired = total_supply; aborts exactly when retired > total_supply |
| RetirementManager.StepPreservesInv | projects/Carbonx/smart_contracts/retirement_manager/contract.py:49-51 | every call keeps retired_credits ≤ total_supply |
| RetirementManager.RunPreservesInv | projects/Carbonx/smart_contracts/retirement_manager/contract.py:49-51 | the invariant holds after any sequence of calls |
| RetirementManager.AvailableNeverUnderflows | projects/Carbonx/smart_contracts/retirement_manager/contract.py:58-61 | from create, after any calls, get_available_supply never aborts |
| RetirementManager.RetireLowersAvailable | projects/Carbonx/smart_contracts/retirement_manager/contract.py:49-61 | a permitted retire succeeds, lowers the available supply by exactly `amount`, and keeps total_supply |
| RetirementManager.NoSupplyNoRetirement | projects/Carbonx/smart_contracts/retirement_manager/contract.py:20-21 | with zero supply, every retire fails |
| RetirementManager.Manager.constructor | projects/Carbonx/smart_contracts/retirement_manager/contract.py:17-21 | the new object's state is `Create(sender)` |
| RetirementManager.Manager.AddSupply | projects/Carbonx/smart_contracts/retirement_manager/contract.py:23-35 | commits `SupplyAdded`, or reports its error and changes nothing; keeps the invariant |
| RetirementManager.Manager.RetireCredits | projects/Carbonx/smart_contracts/retirement_manager/contract.py:37-51 | commits `Retire`, or reports its error and changes nothing; keeps the invariant |
| RetirementManager.Manager.GetRetirementStats | projects/Carbonx/smart_contracts/retirement_manager/contract.py:53-56 | returns retired_credits, which is ≤ total_supply |
| RetirementManager.Manager.GetAvailableSupply | projects/Carbonx/smart_contracts/retirement_manager/contract.py:58-61 | returns total_supply − retired_credits, without aborting |
| CarbonX.Create | projects/Carbonx/smart_contracts/hello_world/contract.py:13-18 | the project name is empty and both tallies are 0 |
| CarbonX.RegisterProject | projects/Carbonx/smart_contracts/hello_world/contract.py:20-24 | creator only; overwrites project_name and leaves the tallies unchanged |
| CarbonX.Mint | projects/Carbonx/smart_contracts/hello_world/contract.py:26-31 | creator only and amount > 0; adds `amount` to total_credits |
| CarbonX.Retire | projects/Carbonx/smart_contracts/hello_world/contract.py:33-39 | open to any sender; succeeds exactly when 0 < amount ≤ total_credits, and moves `amount` from total_credits to retired_credits |
| CarbonX.StepPreservesInv | projects/Carbonx/smart_contracts/hello_world/contract.py:20-24 | a stored project name always fits the ledger's 128-byte bound on key plus value |
| CarbonX.RunPreservesInv | projects/Carbonx/smart_contracts/hello_world/contract.py:20-24 | that bound holds after any sequence of calls |
| CarbonX.CreditsConserved | projects/Carbonx/smart_contracts/hello_world/contract.py:26-39 | total_credits + retired_credits equals its starting value plus everything minted along the calls |
| CarbonX.RetiredNeverExceedsMinted | projects/Carbonx/smart_contracts/hello_world/contract.py:26-39 | from create, the live tally plus the retired tally is exactly the amount minted |
| CarbonX.RetiredNeverDecreases | projects/Carbonx/smart_contracts/hello_world/contract.py:33-39 | retired_credits never decreases |
| CarbonX.OthersOnlyRetire | projects/Carbonx/smart_contracts/hello_world/contract.py:20-39 | a non-creator cannot change the name or raise total_credits |
| CarbonX.Registry.constructor | projects/Carbonx/smart_contracts/hello_world/contract.py:13-18 | the new object's state is `Create(sender)` |
| CarbonX.Registry.RegisterProjectName | projects/Carbonx/smart_contracts/hello_world/contract.py:20-24 | commits `RegisterProject`, or reports its error and changes nothing |
| CarbonX.Registry.MintCredits | projects/Carbonx/smart_contracts/hello_world/contract.py:26-31 | commits `Mint`, or reports its error and changes nothing; live plus retired grows by exactly the minted amount |
| CarbonX.Registry.RetireCredits | projects/Carbonx/smart_contracts/hello_world/contract.py:33-39 | commits `Retire`, or reports its error and changes nothing; live plus retired is unchanged |
| AutoOptIn.EnsureOptedIn | projects/Carbonx/frontend/src/utils/autoOptIn.js:16-72 | the result is true exactly when `Succeeds` holds, and the effects are exactly `Trace` |
| AutoOptIn.AttemptOptIn | projects/Carbonx/frontend/src/utils/autoOptIn.js:22-58 | the try block throws exactly the first error among the calls it reaches, and otherwise returns `Proceeds` |
| AutoOptIn.ConfirmOptIn | projects/Carbonx/frontend/src/utils/autoOptIn.js:40-57 | after the write, the result is true unless a re-check throws |
| AutoOptIn.NoAccountNoNetwork | projects/Carbonx/frontend/src/utils/autoOptIn.js:17-20 | with no account, the result is false, with no status check, no balance read and no write |
| AutoOptIn.AlreadyOptedInIsIdempotent | projects/Carbonx/frontend/src/utils/autoOptIn.js:24-27 | an account already opted in gives true after a single check, with no balance read and no write |
| AutoOptIn.LowBalanceNoWrite | projects/Carbonx/frontend/src/utils/autoOptIn.js:30-34 | a balance below 101000 gives false, with no write |
| AutoOptIn.AtMostOneWrite | projects/Carbonx/frontend/src/utils/autoOptIn.js:36-38 | exactly one opt-in write when the balance guard passes, and none otherwise |
| AutoOptIn.ChecksBounded | projects/Carbonx/frontend/src/utils/autoOptIn.js:40-57 | at most two status checks after the write, and none without a write |
| AutoOptIn.DelaysBounded | projects/Carbonx/frontend/src/utils/autoOptIn.js:40-51 | the waits are none, 1000 ms, or 1000 ms then 2000 ms, and there are none without a write |
| AutoOptIn.OptimisticSuccess | projects/Carbonx/frontend/src/utils/autoOptIn.js:56-57 | when neither re-check sees the opt-in, the result is still true and the last toast is the warning |
| AutoOptIn.ThrowMeansFailure | projects/Carbonx/frontend/src/utils/autoOptIn.js:59-71 | any thrown error gives false, and the catch block's notification comes last |
| AutoOptIn.CancellationWarns | projects/Carbonx/frontend/src/utils/autoOptIn.js:63-64 | a message containing "cancel" or "rejected" produces the cancellation warning |
| AutoOptIn.CatchToast | projects/Carbonx/frontend/src/utils/autoOptIn.js:61-69 | the catch block shows a warning for a cancellation, nothing for a balance problem, and "Opt-in failed: " with the message (or "Unknown error") otherwise |
| AutoOptIn.CancelledContainsCancel | projects/Carbonx/frontend/src/utils/autoOptIn.js:63 | the "cancelled" test adds nothing: a message containing it contains "cancel" |
| AutoOptIn.Contains | projects/Carbonx/frontend/src/utils/autoOptIn.js:63-65 | `includes` is true exactly when the substring occurs at some index |
| StateReader.DecodeValue | projects/Carbonx/frontend/src/services/algorand.js:102 | type 2 gives the raw `uint`; any other type gives `atob(bytes)`, and fails exactly when that throws |
| StateReader.DecodeEntries | projects/Carbonx/frontend/src/services/algorand.js:100-104 | the loop builds exactly the object `Fold` describes, or fails when it does |
| StateReader.StateOf | projects/Carbonx/frontend/src/services/algorand.js:98-110 | a missing entry list or a failed decode gives the empty object, and the folded object otherwise |
| StateReader.ReadGlobalState | projects/Carbonx/frontend/src/services/algorand.js:95-111 | a thrown request, missing `params` or missing `global-state` gives `{}`; otherwise the decoded global state |
| StateReader.ReadLocalState | projects/Carbonx/frontend/src/services/algorand.js:116-131 | the same rule for `app-local-state.key-value` |
| StateReader.FailureIsFinal | projects/Carbonx/frontend/src/services/algorand.js:100-110 | once an entry fails to decode, the whole read fails, whatever follows |
| StateReader.FoldFailsIff | projects/Carbonx/frontend/src/services/algorand.js:100-110 | the read fails exactly when some entry's key or bytes fail to decode |
| StateReader.FoldKeys | projects/Carbonx/frontend/src/services/algorand.js:101-103 | a key is present exactly when some entry decodes to it, except `__proto__` |
| StateReader.FoldLastWins | projects/Carbonx/frontend/src/services/algorand.js:100-104 | for a repeated key, the value is that of the last entry with that key |
| StateReader.FindAsset | projects/Carbonx/frontend/src/services/algorand.js:20 | `find` returns the first holding with a matching id, or reports that none matches |
| StateReader.AssetBalance | projects/Carbonx/frontend/src/services/algorand.js:17-26 | the result is 0 on error or when no holding matches; otherwise it is the amount of the first matching holding, and a non-zero result is always the amount of a matching holding |
| StateReader.FirstHoldingWins | projects/Carbonx/frontend/src/services/algorand.js:20-21 | the first matching holding decides the balance |

## Left out

- **Account closure.** The ClearState and CloseOut completions are not
  modelled. The AVM always lets an account clear its local state. In the
  registries and the bonding marketplace that would drop flags or balances
  without adjusting `approved_count` or `total_credits`, so the invariants
  hold only for the calls modelled.
- **AVM costs.** Fees, minimum-balance requirements (including box storage),
  opcode budgets and the foreign-reference arrays a call must carry are not
  modelled. A call is accepted or rejected only on the conditions its code
  tests and on `UInt64` arithmetic.
- **Inner transactions.** They are recorded in a log. The only inner
  transfer modelled as failing is the opt-in transfer of asset 0, which does
  not exist. Transfers of any other asset the ledger lacks are assumed to
  succeed, and so are transfers from an application account whose asset
  balance is too low.
- **Client calls outside the two pieces modelled.** `callMethod`,
  `simulateReadonly`, the wallet and the calls in `contracts.js`
  (`checkCXTOptIn`, `optInToCXT`, `getAlgoBalance`) are not part of this
  model. What they return or throw is an input to `ensureOptedIn` or to the
  readers.
- AutoOptIn.EnsureOptedIn: the `console.error` logging in the catch block is
  not recorded. Timers are `Wait` effects, not real time.
- StateReader.ReadGlobalState: the `console.error` logging is not recorded.
- StateReader.AssetBalance: the `console.error` logging is not recorded.
- **Base64 decoding.** `atob` is an uninterpreted parameter. Its binary-string
  semantics and base64 per section 4 of RFC 4648 are not modelled.
- **Number precision.** A JavaScript number loses precision above 2^53. The
  model keeps `uint` and asset amounts as exact integers.
- **Malformed node replies.** An entry without a `value`, or a reply of the
  wrong shape, would throw inside the loop and also yield `{}`. The model
  takes entries to be well formed and covers only a failure of `atob`.
- **User interface.** React pages, floating-point cost and emission
  arithmetic, formatting helpers, and the deployment and maintenance scripts
  are not part of this model.
