/** Client runs of the kitties pallet: what a caller can conclude from the
    calls' contracts alone, in the situations the pallet's test suites set up. */
module Scenarios {
  import opened Support
  import opened Balances
  import opened Genetics
  import opened Kitties

  const ALICE: AccountId := 1
  const BOB: AccountId := 2
  const CAROL: AccountId := 3
  const STAKE: Balance := 10

  /** A genesis ledger where the three accounts each hold 1000 free. */
  function Genesis(): (l: Ledger)
    ensures forall who :: l.Reserved(who) == 0
    ensures l.Free(ALICE) == 1000 && l.Free(BOB) == 1000 && l.Free(CAROL) == 1000
  {
    Ledger(map[ALICE := 1000, BOB := 1000, CAROL := 1000], map[], 1)
  }

  /** Two creates by a funded account mint ids 1 and 2, and the counter ends at 2. */
  method CreateTwice(hash128: (Seed, AccountId, nat) -> Dna, seed: Seed) returns (first: KittyIndex, second: KittyIndex, last: KittyIndex)
    ensures first == 1 && second == 2 && last == 2
  {
    var pallet := new Pallet(STAKE, U32_MAX, hash128, Genesis());
    var r := pallet.Create(ALICE, seed, 0);
    assert r.Ok?;
    first := pallet.lastKittyId;
    r := pallet.Create(ALICE, seed, 1);
    assert r.Ok?;
    second := pallet.lastKittyId;
    last := pallet.lastKittyId;
  }

  /** An account that cannot cover the stake gets `NotEnoughBalance`, and no
      id, kitty, owner or reserve appears. */
  method CreateWithoutFunds(hash128: (Seed, AccountId, nat) -> Dna, seed: Seed)
    returns (r: DispatchResult<DispatchError>, last: KittyIndex, minted: bool, reserved: Balance)
    ensures r == Err(Module(NotEnoughBalance)) && last == 0 && !minted && reserved == 0
  {
    var poor: AccountId := 4;
    var pallet := new Pallet(STAKE, U32_MAX, hash128, Genesis());
    r := pallet.Create(poor, seed, 0);
    last := pallet.lastKittyId;
    minted := 1 in pallet.kitties;
    reserved := pallet.balances.Reserved(poor);
  }

  /** Breeding kitties 1 and 2 mints kitty 3 for the breeder, with the DNA
      the selector picks from the parents bit by bit; breeding a kitty with
      itself fails. */
  method BreedTwoParents(hash128: (Seed, AccountId, nat) -> Dna, seed: Seed)
    returns (same: DispatchResult<DispatchError>, child: KittyIndex, owner: AccountId, dna: Dna, dna1: Dna, dna2: Dna, selector: Dna)
    ensures same == Err(Module(SameKittyId))
    ensures child == 3 && owner == ALICE
    ensures dna == Mix(dna1, dna2, selector)
  {
    var pallet := new Pallet(STAKE, U32_MAX, hash128, Genesis());
    var r := pallet.Create(ALICE, seed, 0);
    r := pallet.Create(ALICE, seed, 1);
    assert r.Ok?;
    same := pallet.Breed(ALICE, 1, 1, seed, 2);
    dna1, dna2 := pallet.kitties[1].dna, pallet.kitties[2].dna;
    selector := pallet.RandomValue(ALICE, seed, 3);
    r := pallet.Breed(ALICE, 1, 2, seed, 3);
    assert r.Ok?;
    child := pallet.lastKittyId;
    owner := pallet.kittyOwner[child];
    dna := pallet.kitties[child].dna;
  }

  /** Alice creates a kitty and lists it at 100; Bob buys it. Bob owns it,
      Alice got her stake back plus the price, Bob paid both, and the listing
      is still there, so Carol can buy it straight from Bob at Alice's price. */
  method ListAndBuy(hash128: (Seed, AccountId, nat) -> Dna, seed: Seed)
    returns (owner: AccountId, listing: Option<Balance>,
             aliceFree: Balance, aliceReserved: Balance, bobFree: Balance, bobReserved: Balance,
             resale: DispatchResult<DispatchError>, finalOwner: AccountId)
    ensures owner == BOB && listing == Some(100)
    ensures aliceFree == 1100 && aliceReserved == 0
    ensures bobFree == 890 && bobReserved == 10
    ensures resale == Ok && finalOwner == CAROL
  {
    var pallet := new Pallet(STAKE, U32_MAX, hash128, Genesis());
    var r := pallet.Create(ALICE, seed, 0);
    assert r.Ok?;
    var id := pallet.lastKittyId;
    assert pallet.balances.Free(BOB) == 1000 && pallet.balances.Free(CAROL) == 1000;
    r := pallet.Sell(ALICE, id, Some(100));
    assert r.Ok? && pallet.Staked();
    assert pallet.BuyChecksPass(BOB, id);
    r := pallet.Buy(BOB, id);
    assert r.Ok?;
    owner, listing := pallet.kittyOwner[id], pallet.ShopPrice(id);
    aliceFree, aliceReserved := pallet.balances.Free(ALICE), pallet.balances.Reserved(ALICE);
    bobFree, bobReserved := pallet.balances.Free(BOB), pallet.balances.Reserved(BOB);
    assert pallet.BuyChecksPass(CAROL, id);
    resale := pallet.Buy(CAROL, id);
    finalOwner := pallet.kittyOwner[id];
  }

  /** A kitty listed with `None` cannot be bought. */
  method DelistThenBuy(hash128: (Seed, AccountId, nat) -> Dna, seed: Seed) returns (r: DispatchResult<DispatchError>)
    ensures r == Err(Module(NotForSale))
  {
    var pallet := new Pallet(STAKE, U32_MAX, hash128, Genesis());
    r := pallet.Create(ALICE, seed, 0);
    assert r.Ok?;
    var id := pallet.lastKittyId;
    r := pallet.Sell(ALICE, id, Some(100));
    r := pallet.Sell(ALICE, id, None);
    r := pallet.Buy(BOB, id);
  }

  /** A kitty that was never listed has no shop entry and cannot be bought. */
  method BuyNeverListed(hash128: (Seed, AccountId, nat) -> Dna, seed: Seed) returns (r: DispatchResult<DispatchError>)
    ensures r == Err(Module(NotForSale))
  {
    var pallet := new Pallet(STAKE, U32_MAX, hash128, Genesis());
    r := pallet.Create(ALICE, seed, 0);
    assert r.Ok?;
    r := pallet.Buy(BOB, pallet.lastKittyId);
  }

  /** With `LastKittyId` put at `u32::MAX`, a funded create is refused with
      `KittyIdOverflow`, and neither a kitty nor a reserve appears. */
  method CreateAtMaxId(hash128: (Seed, AccountId, nat) -> Dna, seed: Seed)
    returns (r: DispatchResult<DispatchError>, last: KittyIndex, kittyCount: nat, reserved: Balance)
    ensures r == Err(Module(KittyIdOverflow))
    ensures last == U32_MAX && kittyCount == 0 && reserved == 0
  {
    var pallet := new Pallet(STAKE, U32_MAX, hash128, Genesis());
    pallet.lastKittyId := U32_MAX;
    r := pallet.Create(ALICE, seed, 0);
    last, kittyCount, reserved := pallet.lastKittyId, |pallet.kitties|, pallet.balances.Reserved(ALICE);
  }

  /** Breeding parents that do not exist gives `InvalidKittyId`; breeding
      existing parents by an account that cannot cover the stake gives
      `NotEnoughBalance`, and no child appears. */
  method BreedRefused(hash128: (Seed, AccountId, nat) -> Dna, seed: Seed)
    returns (missing: DispatchResult<DispatchError>, unfunded: DispatchResult<DispatchError>, last: KittyIndex)
    ensures missing == Err(Module(InvalidKittyId))
    ensures unfunded == Err(Module(NotEnoughBalance)) && last == 2
  {
    var poor: AccountId := 4;
    var pallet := new Pallet(STAKE, U32_MAX, hash128, Genesis());
    missing := pallet.Breed(ALICE, 1, 2, seed, 0);
    var r := pallet.Create(ALICE, seed, 1);
    assert r.Ok?;
    r := pallet.Create(ALICE, seed, 2);
    assert r.Ok?;
    unfunded := pallet.Breed(poor, 1, 2, seed, 3);
    last := pallet.lastKittyId;
  }

  /** Two kitties minted just below `u32::MAX` take the last two ids, after
      which breeding them is refused with `KittyIdOverflow`. */
  method BreedAtMaxId(hash128: (Seed, AccountId, nat) -> Dna, seed: Seed)
    returns (first: KittyIndex, second: KittyIndex, r: DispatchResult<DispatchError>)
    ensures first == U32_MAX - 1 && second == U32_MAX
    ensures r == Err(Module(KittyIdOverflow))
  {
    var pallet := new Pallet(STAKE, U32_MAX, hash128, Genesis());
    pallet.lastKittyId := U32_MAX - 2;
    r := pallet.Create(ALICE, seed, 0);
    assert r.Ok?;
    first := pallet.lastKittyId;
    r := pallet.Create(ALICE, seed, 1);
    assert r.Ok?;
    second := pallet.lastKittyId;
    r := pallet.Breed(ALICE, first, second, seed, 2);
  }

  /** Alice gives her kitty to Bob: Bob owns it and carries the stake, Alice's
      stake is back in her free balance, and the transfer is announced. */
  method TransferWorks(hash128: (Seed, AccountId, nat) -> Dna, seed: Seed)
    returns (r: DispatchResult<DispatchError>, owner: AccountId, event: Event,
             aliceFree: Balance, aliceReserved: Balance, bobFree: Balance, bobReserved: Balance)
    ensures r == Ok && owner == BOB && event == KittyTransferred(ALICE, BOB, 1)
    ensures aliceFree == 1000 && aliceReserved == 0
    ensures bobFree == 990 && bobReserved == 10
  {
    var pallet := new Pallet(STAKE, U32_MAX, hash128, Genesis());
    r := pallet.Create(ALICE, seed, 0);
    assert r.Ok?;
    assert pallet.balances.Free(BOB) == 1000 && pallet.balances.Reserved(BOB) == 0;
    r := pallet.Transfer(ALICE, 1, BOB);
    owner, event := pallet.kittyOwner[1], pallet.events[|pallet.events| - 1];
    aliceFree, aliceReserved := pallet.balances.Free(ALICE), pallet.balances.Reserved(ALICE);
    bobFree, bobReserved := pallet.balances.Free(BOB), pallet.balances.Reserved(BOB);
  }

  /** Only the owner may transfer (`NotOwner` for Bob), and the receiver must
      cover the stake (`NotEnoughBalance` for an unfunded account); either
      way Alice keeps the kitty. */
  method TransferRefused(hash128: (Seed, AccountId, nat) -> Dna, seed: Seed)
    returns (notOwner: DispatchResult<DispatchError>, unfunded: DispatchResult<DispatchError>, owner: AccountId)
    ensures notOwner == Err(Module(NotOwner))
    ensures unfunded == Err(Module(NotEnoughBalance))
    ensures owner == ALICE
  {
    var poor: AccountId := 5;
    var pallet := new Pallet(STAKE, U32_MAX, hash128, Genesis());
    var r := pallet.Create(ALICE, seed, 0);
    assert r.Ok?;
    notOwner := pallet.Transfer(BOB, 1, CAROL);
    unfunded := pallet.Transfer(ALICE, 1, poor);
    owner := pallet.kittyOwner[1];
  }

  /** The owner's listing at 100 is stored and announced; someone else
      trying to list the kitty gets `NotOwner`. */
  method SellByOwnerOnly(hash128: (Seed, AccountId, nat) -> Dna, seed: Seed)
    returns (listed: DispatchResult<DispatchError>, listing: Option<Balance>, event: Event, stranger: DispatchResult<DispatchError>)
    ensures listed == Ok && listing == Some(100) && event == KittyInSell(ALICE, 1, Some(100))
    ensures stranger == Err(Module(NotOwner))
  {
    var pallet := new Pallet(STAKE, U32_MAX, hash128, Genesis());
    var r := pallet.Create(ALICE, seed, 0);
    assert r.Ok?;
    listed := pallet.Sell(ALICE, 1, Some(100));
    listing, event := pallet.ShopPrice(1), pallet.events[|pallet.events| - 1];
    stranger := pallet.Sell(CAROL, 1, Some(100));
  }

  /** The owner cannot buy their own listed kitty (`NoBuySelf`), and a buyer
      whose free balance does not exceed price plus stake gets
      `NotEnoughBalance`. */
  method BuyRefused(hash128: (Seed, AccountId, nat) -> Dna, seed: Seed)
    returns (own: DispatchResult<DispatchError>, tooPoor: DispatchResult<DispatchError>)
    ensures own == Err(Module(NoBuySelf))
    ensures tooPoor == Err(Module(NotEnoughBalance))
  {
    var pallet := new Pallet(STAKE, U32_MAX, hash128, Genesis());
    var r := pallet.Create(ALICE, seed, 0);
    assert r.Ok?;
    r := pallet.Sell(ALICE, 1, Some(100000));
    assert r.Ok?;
    own := pallet.Buy(ALICE, 1);
    assert pallet.balances.Free(CAROL) == 1000;
    tooPoor := pallet.Buy(CAROL, 1);
  }
}
