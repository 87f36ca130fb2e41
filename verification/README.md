# NftEvolution — a Dafny model

This project models the MultiversX (Elrond) smart contract `NftEvolution`.
A holder attaches one NFT from each of two configured collections and calls
`evolve_nft`. In return the contract sends them the token of a third,
"upgraded" collection whose nonce equals the remaining-supply counter, and
then decrements the counter. The owner refills the contract's stock of
upgraded tokens through `store_nfts`. This is a deposit gate that accepts
only transfers of the upgraded collection.

The contract's storage is an immutable record `NftEvolution.State` with five
fields: `amount`, the first, second and upgraded collection identifiers, and
the counter. Each storage entry has a getter and a setter. The host facts
are explicit inputs:
- the caller (`Address`);
- the attached transfer bundle (`seq<EsdtTransfer>`, each transfer a token id, nonce and quantity);
- the contract's own balance (`Inventory`, a map from (token, nonce) to quantity).

The one outgoing transfer is an explicit output (`Payout`).

Files:
- `esdt.dfy`, module `Esdt`: the host's vocabulary (`uint64`, token ids, transfers, inventory) and bundle predicates: presence, all-of and counting.
- `nft_evolution.dfy`, module `NftEvolution`: storage, `init`, `evolve_nft` and `store_nfts`. Each endpoint appears twice: as a pure transition function, and as a method that follows the endpoint's statements (its loop and early returns) and is proved equal to the function.
- `lifecycle.dfy`, module `Lifecycle`: sequences of `evolve_nft` calls as the host commits them. A call counts as committed once the contract's checks pass. The module also holds a concrete deployment (amount 1, three upgraded tokens).

Behaviour of the code worth knowing:
- An exchange makes one `send().direct` call: the upgraded token at nonce = counter, in quantity `amount`, to the caller. Nothing else is paid (`EvolveSuccessPayout`). The check at line 61 lets a call through only when the contract holds exactly one unit at that nonce. So the requested payout is covered by the holding exactly when `amount` is at most 1 (`EvolvePayoutCoveredIffAmountAtMostOne`). With any larger `amount`, every call that passes the checks asks the host for more than the contract holds.
- The bundle check tests presence only. With distinct collections, a 2-transfer bundle that passes holds exactly one token of each (`EvolveDistinctCollectionsOneOfEach`). When the two configured collections coincide, one token of that collection plus any other transfer passes: a second token of it (`EvolveSameCollectionAcceptsTwoOfOne`) or a transfer of an unrelated collection (`EvolveSameCollectionAcceptsOnePlusStray`). The nonces and quantities of the incoming transfers are never looked at.
- The counter is a Rust `u64`, and line 71 subtracts 1 from it unchecked. The model uses a wrapping decrement, as in a release build without overflow checks. Wrapping is reachable only if the host reports one unit of the upgraded collection at nonce 0 (`EvolveAtZeroWraps`). The host numbers tokens from 1, so under a well-formed inventory a call at counter 0 is rejected at line 61 (`EvolveAtZeroRejected`, `ExhaustedSupplyPaysNothing`).

## Model

| member | source | states |
|---|---|---|
| NftEvolution.Init | nft-evolution/src/nft_evolution.rs:10-27 | after `init`, each of the five getters returns exactly the argument it was given |
| NftEvolution.GetAmount | nft-evolution/src/nft_evolution.rs:123-125 | the getter reads the `amount` entry: writing the value read back into it leaves storage unchanged |
| NftEvolution.GetFirstCollectionIdentifier | nft-evolution/src/nft_evolution.rs:98-100 | the getter reads the first-collection entry: writing the value read back leaves storage unchanged |
| NftEvolution.GetSecondCollectionIdentifier | nft-evolution/src/nft_evolution.rs:105-107 | the getter reads the second-collection entry: writing the value read back leaves storage unchanged |
| NftEvolution.GetUpgradedCollectionIdentifier | nft-evolution/src/nft_evolution.rs:112-114 | the getter reads the upgraded-collection entry: writing the value read back leaves storage unchanged |
| NftEvolution.GetNumberOfRemainingUpgradedNfts | nft-evolution/src/nft_evolution.rs:116-118 | the getter reads the counter entry: writing the value read back leaves storage unchanged |
| NftEvolution.SetAmount | nft-evolution/src/nft_evolution.rs:123-125 | writing `amount` changes that entry to the new value and no other entry |
| NftEvolution.SetFirstCollectionIdentifier | nft-evolution/src/nft_evolution.rs:95-100 | the written identifier is what the getter reads back; the other entries are unchanged |
| NftEvolution.SetSecondCollectionIdentifier | nft-evolution/src/nft_evolution.rs:102-107 | the written identifier is what the getter reads back; the other entries are unchanged |
| NftEvolution.SetUpgradedCollectionIdentifier | nft-evolution/src/nft_evolution.rs:109-114 | the written identifier is what the getter reads back; the other entries are unchanged |
| NftEvolution.SetNumberOfRemainingUpgradedNfts | nft-evolution/src/nft_evolution.rs:116-121 | the written counter is what the getter reads back; the other entries are unchanged |
| NftEvolution.WrappingDecrement | nft-evolution/src/nft_evolution.rs:71 | the new counter plus one equals the old counter modulo 2^64, and it is smaller whenever the old counter was positive |
| NftEvolution.EvolveNft | nft-evolution/src/nft_evolution.rs:33-76 | the three guards in source order (size, presence, balance == 1), then the payout and the wrapping decrement; its contract: failures carry only the three `evolve_nft` errors, and a success had a 2-transfer bundle, pays the caller a token held exactly once, and writes only the counter. Its further properties are the Evolve* rows |
| NftEvolution.EvolveRejectsWrongSize | nft-evolution/src/nft_evolution.rs:45 | a bundle of any length other than 2 fails with "Transaction requires exactly 2 nfts!", whatever identifiers it holds |
| NftEvolution.EvolveRejectsMissingCollection | nft-evolution/src/nft_evolution.rs:42-57 | a 2-transfer bundle lacking either configured collection fails with "You need one nft from each of the 2 collections!" |
| NftEvolution.EvolveDistinctCollectionsOneOfEach | nft-evolution/src/nft_evolution.rs:45-57 | with distinct configured collections, a successful call's bundle holds exactly one transfer of each |
| NftEvolution.EvolveSameCollectionAcceptsTwoOfOne | nft-evolution/src/nft_evolution.rs:47-57 | with equal configured collections, two tokens of that collection pass the bundle check and the call succeeds |
| NftEvolution.EvolveSameCollectionAcceptsOnePlusStray | nft-evolution/src/nft_evolution.rs:47-57 | with equal configured collections, one token of that collection plus a transfer of any other collection passes and the call succeeds |
| NftEvolution.EvolveIgnoresIncomingNoncesAndAmounts | nft-evolution/src/nft_evolution.rs:47-55 | two bundles with the same identifiers in the same positions get the same outcome |
| NftEvolution.EvolveRequiresSingleUnitAtCounter | nft-evolution/src/nft_evolution.rs:59-61 | after a valid bundle, the call succeeds if and only if the contract holds exactly 1 upgraded token at nonce = counter, and otherwise fails with "Nft does not exist!" |
| NftEvolution.EvolveSuccessPayout | nft-evolution/src/nft_evolution.rs:45-69 | success happens if and only if all three guards pass; the payout goes to the caller and carries the upgraded identifier, nonce = pre-call counter and quantity = stored amount |
| NftEvolution.EvolvePayoutCoveredIffAmountAtMostOne | nft-evolution/src/nft_evolution.rs:59-69 | on a call that passes the checks, the requested `amount` is at most the held quantity if and only if `amount` ≤ 1; any larger `amount` asks for more than the contract holds |
| NftEvolution.EvolveSuccessState | nft-evolution/src/nft_evolution.rs:71-73 | on success the counter drops by one modulo 2^64, so exactly by one when it was positive; amount and the three identifiers are unchanged |
| NftEvolution.EvolveAtZeroWraps | nft-evolution/src/nft_evolution.rs:59-73 | at counter 0, a reported unit at nonce 0 lets the call through and the counter wraps to 2^64-1 |
| NftEvolution.EvolveAtZeroRejected | nft-evolution/src/nft_evolution.rs:59-61 | at counter 0 with no unit at nonce 0, every call fails; a valid bundle fails with "Nft does not exist!" |
| NftEvolution.EvolveNftSteps | nft-evolution/src/nft_evolution.rs:33-76 | the endpoint's statements in order (length check, flag loop, balance check, send, decrement) give the transition function's result; a rejected call returns storage untouched |
| NftEvolution.StoreNfts | nft-evolution/src/nft_evolution.rs:80-91 | the owner guard, then the per-transfer collection check; an accepted deposit came from the owner and holds only upgraded tokens, and a rejection carries only the owner or wrong-collection error |
| NftEvolution.StoreNftsAcceptsExactly | nft-evolution/src/nft_evolution.rs:80-91 | a deposit is accepted if and only if the owner calls and every transfer is of the upgraded collection (the empty bundle included); a non-owner gets the owner error, and a stray collection gets "Wrong collection!" |
| NftEvolution.StoreNftsSteps | nft-evolution/src/nft_evolution.rs:83-91 | the loop with its early return computes the deposit gate's verdict and never changes storage |
| Lifecycle.Commit | nft-evolution/src/nft_evolution.rs:45-73 | a rejected call leaves storage as it was, and no call changes the configuration entries |
| Lifecycle.Run | nft-evolution/src/nft_evolution.rs:45-73 | repeated `evolve_nft` calls with only successful ones committed: at most one payout per call, and no entry other than the counter ever changes |
| Lifecycle.RunConservesSupply | nft-evolution/src/nft_evolution.rs:59-73 | over well-formed inventories, payouts requested plus counter left equal the initial counter; the k-th payout is the upgraded token at nonce initial-k (at least 1) in quantity amount |
| Lifecycle.ExhaustedSupplyPaysNothing | nft-evolution/src/nft_evolution.rs:59-61 | once the counter is 0, no run over well-formed inventories pays out or changes storage |
| Lifecycle.FirstExchangeScenario | nft-evolution/src/nft_evolution.rs:10-76 | deploy (1, FIRST-abc, SECOND-def, UPGRADED-ghi, 3), exchange a pair: the caller gets the held UPGRADED-ghi token at nonce 3 and the counter becomes 2 |
| Lifecycle.FourthExchangeRejected | nft-evolution/src/nft_evolution.rs:45-73 | in the same deployment three exchanges pass the contract's checks and request nonces 3, 2, 1, leaving counter 0, and a fourth fails with "Nft does not exist!" |

## Left out

- Host calls `get_caller`, `all_esdt_transfers` and `get_sc_balance` are inputs (`caller`, `bundle`, `inv`). `send().direct` is the output record `Payout`. The model does not execute the transfer.
- Movement of tokens into and out of the contract account is the host's bookkeeping. The model does not update the inventory after a payout or a deposit; in `Lifecycle` each call carries the inventory it sees.
- The owner-only attribute on `store_nfts` is framework code. It is modelled as a caller-equals-owner check that fails first, with the owner passed in explicitly.
- Lifecycle.Commit: a call is committed once the contract's checks pass. The model does not check that the host can make the payout, which needs `amount` ≤ the held quantity, and line 61 pins that quantity to 1. With `amount` > 1 the host's transfer fails and the call rolls back; `Commit` and `Run` would still count it. The hazard is stated by `EvolvePayoutCoveredIffAmountAtMostOne`, and the scenarios deploy with amount 1.
- Lifecycle.Run: same reason as `Commit`. It commits every call whose checks pass.
- Lifecycle.RunConservesSupply: same reason as `Commit`. Its payouts are those the contract requests; for `amount` > 1 the host would not complete them.
- The host rolls back a call whose transfer fails, e.g. when the caller cannot receive. That rollback is not modelled. The model shows that no storage write precedes a failing check, and `Lifecycle.Commit` keeps the old storage on failure.
- `BigUint` arithmetic is `nat`, and `TokenIdentifier` is an opaque identifier compared only for equality. Storage-key encoding, the `no_std`/WASM plumbing and the `elrond_wasm` macros are not modelled.
- NftEvolution.WrappingDecrement: models a build without overflow checks. In a build with overflow checks, line 71 at counter 0 would abort the call instead, and the host would discard it.
