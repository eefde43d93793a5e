# Kitties pallet, modelled in Dafny

This project models two FRAME pallets of a Substrate runtime.

**The kitties pallet** is a ledger of uniquely numbered kitties. Each kitty has a 16-byte DNA and an owner. Its storage is:

- the counter `LastKittyId`;
- three maps keyed by kitty id: `Kitties` (the DNA), `KittyOwner` (the owner) and `KittiesShop` (an optional asking price).

Owning a kitty costs collateral: the owner keeps `KittyStake` reserved in the balances ledger for as long as they hold it. The pallet has five calls:

- `create` mints a kitty with random DNA.
- `breed` mints a child whose DNA mixes two parents' DNA bit by bit under a random selector.
- `transfer` gives a kitty to another account, which then carries the stake.
- `sell` sets or clears the asking price.
- `buy` moves the stake, pays the price and changes the owner.

**The template pallet** holds one optional `u32`, `Something`. A caller can set it, or increment it with an overflow check.

## Files

- `support.dfy` (`Support`): `Option`, `Result`, the `DispatchResult` a call returns, and map lookup.
- `balances.dfy` (`Balances`): the part of the balances ledger that the kitties pallet uses: free and reserved balance per account, `Reserve`, `Unreserve` and a keep-alive `TransferKeepAlive`. Each operation is a pure function from one ledger to the next.
- `genetics.dfy` (`Genetics`): the DNA mixing.
  - `Mix` is the mixing as a value.
  - `MixDna` is the breeding loop over a 16-byte array.
  - The remaining lemmas state what mixing means.
- `kitties.dfy` (`Kitties`):
  - id allocation;
  - the collateral invariant and its lemmas;
  - the class `Pallet`, whose fields are the storage items plus the ledger and the event list, with one method per call.
- `template.dfy` (`Template`): the template pallet as a class with the `Something` field.
- `scenarios.dfy` (`Scenarios`): client runs that use only the calls' contracts. They replay the situations of the pallet's test suites:
  - create: two mints, no funds, id overflow;
  - breed: success, same parent, missing parent, no funds, id overflow;
  - transfer: success, not the owner, a receiver without funds;
  - sell: success, not the owner;
  - buy: success, buying one's own kitty, not enough balance, never listed, de-listed.

Each kitties call checks its conditions in the source's order. The model treats every call as all-or-nothing: it commits its new storage and ledger only when the whole call succeeds, and a failed call leaves the pallet `unchanged`. This is an assumption of the model. It holds when the runtime runs each call in a storage transaction. None of the calls is marked `#[transactional]`, so on a runtime that does not do this, a `buy` refused at the payment would keep the reserve and unreserve made before it (see "Left out").

Two invariants are kept by every call:

- `Pallet.Valid()`: every kitty has an owner, every id lies in `1..LastKittyId`, and only owned kitties have shop entries.
- `Pallet.Staked()`, built from `Collateralized`: every account has exactly one `KittyStake` reserved per kitty it owns. This assumes no other pallet reserves from the same accounts.

### Where the model follows the code rather than the tests

- **Ids start at 1.** The counter defaults to 0 and the first mint stores `0 + 1` (`pallets/kitties/src/lib.rs:55-58`, `246-262`). `pallets/kitties/src/tests.rs` expects id 0 first and uses names (`NextKittyId`, `KittyCreatedAndBreed`) that the pallet does not define.
- **Listings stay after a sale.** Neither `buy` nor `transfer` touches `KittiesShop`. A sold kitty therefore stays listed at the seller's price, and anyone can buy it at once from the new owner (`Scenarios.ListAndBuy`).
- **Breeding needs no ownership.** `breed` does not require the caller to own either parent.
- **Breeding emits `KittyCreated`.** The child is announced with `KittyCreated`, not `KittyBred`. `KittyBred` is declared but never emitted.
- **Id overflow.** On overflow the code panics after reserving the stake (see Findings). The model returns `KittyIdOverflow` and changes nothing, which is what `pallets/kitties/src/tests.rs:64-74` expects.

## Model

| member | source | states |
|---|---|---|
| `Balances.Reserve` | pallets/kitties/src/lib.rs:243-244 | reserving succeeds iff the free balance covers the amount; on success the amount moves from free to reserved for that account only |
| `Balances.Unreserve` | pallets/kitties/src/lib.rs:161 | never fails; releases min(amount, reserved) back to free, keeps the account's total, touches no other account |
| `Balances.TransferKeepAlive` | pallets/kitties/src/lib.rs:207 | the keep-alive transfer succeeds iff the sender keeps at least the minimum balance (or pays nothing or pays itself); it debits the sender, credits the receiver and leaves reserves alone |
| `Genetics.MixByteBit` | pallets/kitties/src/lib.rs:137 | each bit of the byte formula (dna1 AND sel) OR (dna2 AND NOT sel) is parent 1's bit where the selector bit is 1 and parent 2's where it is 0 |
| `Genetics.Mix` | pallets/kitties/src/lib.rs:135-138 | the child DNA: for every one of the 16 bytes and 8 bits, the bit comes from the parent the selector picks |
| `Genetics.MixDna` | pallets/kitties/src/lib.rs:135-138 | the in-place loop over the 16-byte buffer yields exactly `Mix` of the parents under the selector |
| `Genetics.MixSameParents` | pallets/kitties/src/lib.rs:135-138 | parents with equal DNA give a child with that DNA, for every selector |
| `Genetics.MixAllOnes` | pallets/kitties/src/lib.rs:135-138 | an all-ones selector yields parent 1's DNA |
| `Genetics.MixAllZeros` | pallets/kitties/src/lib.rs:135-138 | an all-zeros selector yields parent 2's DNA |
| `Genetics.MixSwapParents` | pallets/kitties/src/lib.rs:135-138 | swapping the parents is the same as complementing the selector |
| `Genetics.MixCommutesIffSameParents` | pallets/kitties/src/lib.rs:135-138 | mixing is not commutative: swapping the parents gives the same child iff the parents' DNA is equal |
| `Kitties.CheckedNextId` | pallets/kitties/src/lib.rs:247-249 | `checked_add(1)` on the index type is `None` exactly at its maximum, and otherwise `last + 1` |
| `Kitties.AllocateIdAsWritten` | pallets/kitties/src/lib.rs:246-251 | as written, allocation panics exactly when the counter is at the index maximum |
| `Kitties.AllocateIdAsWrittenPanicsAtMax` | pallets/kitties/src/lib.rs:247-251 | at the maximum, the written code panics where the declared error `KittyIdOverflow` was intended |
| `Kitties.AllocateId` | pallets/kitties/src/lib.rs:246-251 | corrected allocation: `KittyIdOverflow` exactly at the maximum, otherwise `last + 1` |
| `Kitties.OwnedByMint` | pallets/kitties/src/lib.rs:258-260 | writing an owner for a fresh id adds one kitty to that owner's holdings and changes no one else's |
| `Kitties.OwnedByReassign` | pallets/kitties/src/lib.rs:163 | rewriting an existing id's owner moves one kitty from the old owner's holdings to the new owner's |
| `Kitties.MintKeepsCollateral` | pallets/kitties/src/lib.rs:240-262 | reserving one stake and minting a fresh kitty for the same account keeps every account at exactly one stake per kitty held |
| `Kitties.ReassignReservedAt` | pallets/kitties/src/lib.rs:157-163 | after reserve-then-unreserve and the owner rewrite, each account's reserve equals one stake per kitty it now holds |
| `Kitties.ReassignKeepsCollateral` | pallets/kitties/src/lib.rs:157-163 | reserving for the new owner before releasing the old one keeps every account exactly collateralized; the new owner's reserve grows by the stake, and the old owner's shrinks by it and returns to free |
| `Kitties.Pallet.constructor` | pallets/kitties/src/lib.rs:55-83 | genesis: counter 0 and all three maps empty over the given ledger; `Valid` holds, and the collateral invariant holds when that ledger has nothing reserved |
| `Kitties.Pallet.RandomValue` | pallets/kitties/src/lib.rs:218-225 | the 16 bytes are the 128-bit hash of the (random seed, caller, extrinsic index) payload; the hash and the seed are supplied from outside |
| `Kitties.Pallet.KittyOfId` | pallets/kitties/src/lib.rs:227-232 | a kitty is found iff its id has an owner, and then the id lies in `1..LastKittyId` |
| `Kitties.Pallet.ShopPrice` | pallets/kitties/src/lib.rs:79-83 | `KittiesShop::get` with the default `None`: a price exactly when a stored entry holds one; a missing entry and a stored `None` both read as not for sale |
| `Kitties.Pallet.NewKittyWithStake` | pallets/kitties/src/lib.rs:235-268 | `NotEnoughBalance` when the stake cannot be reserved, else `KittyIdOverflow` at the maximum, each with no state change; on success the new id is `old LastKittyId + 1`, is above every existing id, holds the DNA and the caller as owner, the stake is reserved, and `KittyCreated` is recorded; both invariants are kept |
| `Kitties.Pallet.Create` | pallets/kitties/src/lib.rs:108-113 | mints a kitty with the DNA `random_value` gives for the caller, with the outcomes of `NewKittyWithStake` |
| `Kitties.Pallet.Breed` | pallets/kitties/src/lib.rs:116-142 | equal ids give `SameKittyId` before existence is checked; a missing parent gives `InvalidKittyId`; then the stake and id outcomes of minting; on success the child's DNA is `Mix` of the parents under the random selector, owned by the caller, announced with `KittyCreated` |
| `Kitties.Pallet.Transfer` | pallets/kitties/src/lib.rs:145-167 | a missing kitty gives `InvalidKittyId`, a caller who is not the owner gives `NotOwner`, and a new owner who cannot cover the stake gives `NotEnoughBalance`; each leaves state unchanged. On success the owner is rewritten, the new owner's reserve grows by the stake and the sender's shrinks by it. `Kitties`, `LastKittyId` and `KittiesShop` are untouched |
| `Kitties.Pallet.Sell` | pallets/kitties/src/lib.rs:170-183 | succeeds iff the caller owns the id (a missing id fails with `NotOwner`); then only the shop entry changes, to the given price, where `None` means not for sale |
| `Kitties.Pallet.Buy` | pallets/kitties/src/lib.rs:186-213 | checks in order: `InvalidKittyId`, `NoBuySelf`, `NotForSale`, `NotEnoughBalance` unless free > price + stake; a refused keep-alive payment aborts the call. On success the buyer owns the kitty and pays price plus stake; the seller gets the price and their stake back; other accounts and the shop entry are left as they were |
| `Template.CheckedAdd` | pallets/template/src/lib.rs:126 | `u32::checked_add`: `None` exactly when the sum exceeds `u32::MAX`, otherwise the exact sum |
| `Template.Pallet.constructor` | pallets/template/src/lib.rs:71 | `Something` starts unset |
| `Template.Pallet.DoSomething` | pallets/template/src/lib.rs:100-113 | always succeeds, stores the value and records `SomethingStored(value, who)` |
| `Template.Pallet.CauseError` | pallets/template/src/lib.rs:117-132 | unset gives `NoneValue`, `u32::MAX` gives `StorageOverflow`, both with no change; otherwise the value becomes old + 1 |
| `Scenarios.CreateTwice` | pallets/kitties/src/tests.rs:20-30 | two creates by a funded account mint ids 1 and 2, and the counter ends at 2 |
| `Scenarios.CreateWithoutFunds` | pallets/kitties/src/tests.rs:53-62 | an account that cannot cover the stake gets `NotEnoughBalance`, and no id, kitty or reserve appears |
| `Scenarios.BreedTwoParents` | pallets/kitties/src/tests.rs:77-129 | breeding a kitty with itself gives `SameKittyId`; breeding kitties 1 and 2 mints kitty 3 for the breeder with the mixed DNA |
| `Scenarios.ListAndBuy` | pallets/kitties/src/test.rs:214-230 | after a listing at 100 and a purchase, the buyer owns the kitty, the seller has the price and their stake back, the buyer paid price plus stake, the listing persists, and a third account can buy it at once |
| `Scenarios.DelistThenBuy` | pallets/kitties/src/lib.rs:177-193 | a kitty whose stored price was set to `None` cannot be bought: `NotForSale` |
| `Scenarios.BuyNeverListed` | pallets/kitties/src/test.rs:250-264 | a kitty that was never listed cannot be bought: `NotForSale` |
| `Scenarios.CreateAtMaxId` | pallets/kitties/src/tests.rs:64-74 | with the counter put at `u32::MAX`, a funded create gives `KittyIdOverflow`, and no kitty or reserve appears |
| `Scenarios.BreedRefused` | pallets/kitties/src/test.rs:82-134 | breeding missing parents gives `InvalidKittyId`; breeding by an account that cannot cover the stake gives `NotEnoughBalance` and mints nothing |
| `Scenarios.BreedAtMaxId` | pallets/kitties/src/test.rs:97-115 | two kitties minted from `u32::MAX - 2` take the last two ids, and breeding them gives `KittyIdOverflow` |
| `Scenarios.TransferWorks` | pallets/kitties/src/test.rs:166-179 | after a transfer the receiver owns the kitty and carries the stake, the sender's stake is free again, and `KittyTransferred` is recorded |
| `Scenarios.TransferRefused` | pallets/kitties/src/test.rs:181-212 | a non-owner's transfer gives `NotOwner`, a receiver without funds gives `NotEnoughBalance`, and the owner keeps the kitty |
| `Scenarios.SellByOwnerOnly` | pallets/kitties/src/test.rs:137-164 | the owner's listing is stored and announced with `KittyInSell`; another account's listing gives `NotOwner` |
| `Scenarios.BuyRefused` | pallets/kitties/src/test.rs:232-282 | the owner buying their own kitty gives `NoBuySelf`; a buyer whose free balance does not exceed price plus stake gives `NotEnoughBalance` |

## Left out

- Origins and signatures (`ensure_signed`) are not modelled. The caller's account is a parameter of each call.
- Weights, storage hashers, encoding and `MaxEncodedLen` are not modelled. The event deposit is modelled as an appended `events` list.
- The blake2-128 hash, the randomness source and the extrinsic index used by `random_value` (`pallets/kitties/src/lib.rs:218-225`) are not modelled. `Kitties.Pallet.RandomValue` applies the pallet's injected `hash128` function of (seed, account, extrinsic index); the seed and the extrinsic index are parameters of `Create` and `Breed`.
- The balances pallet itself is not part of this model; only its contract is stated in `Balances`.
  - Reserving succeeds iff the free balance covers the amount; locks are ignored.
  - Unreserving never fails.
  - A keep-alive transfer fails when the sender would keep less than one `minBalance`.
  - Other existential-deposit rules are not modelled (account reaping, the receiver's minimum).
- Balances are unbounded naturals, so the unchecked `price + stake_amount` in `buy` (`pallets/kitties/src/lib.rs:199`) cannot wrap in the model.
- `Kitties.Pallet.Buy`: the `map_err` on the buyer's reserve (`pallets/kitties/src/lib.rs:203`) is modelled, but under the ledger contract it cannot fire: the balance check before it already guarantees the reserve.
- Storage rollback is not modelled as such. A call computes its new ledger and maps first and assigns them only on success. For the id overflow this means the stake reserved before the panic is never committed. On a runtime that does not wrap calls in a storage transaction, a `buy` refused by the keep-alive payment (`pallets/kitties/src/lib.rs:207`) would keep the buyer's reserve and the seller's unreserve (lines 203 and 205); the model does not capture that partial state.
- `Kitties.Pallet.Staked`: the collateral invariant assumes this pallet is the only one reserving from these accounts. The constructor establishes it only for a genesis ledger with nothing reserved. With other reserves present, only the per-call changes to each account's reserve are stated.
- The `MaxKittyIndex` constant (`pallets/kitties/src/lib.rs:42-43`) is never read by the pallet and is not modelled. The id bound is the index type's maximum, the pallet's `indexMax`, which is at least `u32::MAX`.
- The template pallet's `fetch_github_info` (HTTP and JSON), its hooks (which only log), the commented-out offchain worker code and the `Debug` formatter for the GitHub record are I/O and are not modelled.
- The test files are harness code over a mock runtime that is not part of this model. They are used only as evidence of intent; `pallets/kitties/src/tests.rs:255-274` never calls `buy`.

## Findings

| source | as written | input that shows it | evidently intended | confidence | as-written member | corrected member |
|---|---|---|---|---|---|---|
| pallets/kitties/src/lib.rs:247-251 | `checked_add(1).ok_or(KittyIdOverflow).unwrap()` panics on overflow, after the stake was already reserved | `LastKittyId` equal to the index type's maximum, then `create` by a funded account | propagate the error with `?`: the call fails with `KittyIdOverflow` and changes nothing, as `pallets/kitties/src/tests.rs:64-74` expects | high (not executed) | `Kitties.AllocateIdAsWritten`, `Kitties.AllocateIdAsWrittenPanicsAtMax` | `Kitties.AllocateId`, used by `Kitties.Pallet.NewKittyWithStake` |
