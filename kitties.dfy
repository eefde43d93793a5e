/** The kitties pallet: a ledger of uniquely numbered kitties, each with a
    16-byte DNA and an owner who keeps `KittyStake` reserved for as long as
    they hold it. Kitties are created from random DNA or bred from two
    parents, transferred, listed for sale and bought. */
module Kitties {
  import opened Support
  import opened Balances
  import opened Genetics

  /** `KittyIndex`; its largest value is the pallet's `indexMax`. */
  type KittyIndex = nat

  /** The random seed handed out by the runtime's randomness source. */
  type Seed = seq<bv8>

  const U32_MAX: nat := 0xFFFF_FFFF

  datatype Kitty = Kitty(dna: Dna)

  datatype Event =
    | KittyCreated(owner: AccountId, id: KittyIndex)
    | KittyBred(owner: AccountId, id: KittyIndex, kitty: Kitty)  // declared, never emitted
    | KittyTransferred(from: AccountId, to: AccountId, id: KittyIndex)
    | KittyInSell(seller: AccountId, id: KittyIndex, price: Option<Balance>)

  datatype Error =
    | InvalidKittyId
    | KittyIdOverflow
    | NotOwner
    | SameKittyId
    | NoBuySelf
    | NotForSale
    | NotEnoughBalance

  /** A call fails either with one of this pallet's errors or with the error
      the balances pallet raises when a keep-alive transfer is refused. */
  datatype DispatchError = Module(error: Error) | BalancesTransferFailed

  // ---------------------------------------------------------------------
  // Id allocation
  // ---------------------------------------------------------------------

  /** `last_kitty_id().checked_add(1)` on a `KittyIndex` whose largest value is `max`. */
  function CheckedNextId(last: KittyIndex, max: KittyIndex): (r: Option<KittyIndex>)
    requires last <= max
    ensures r.None? <==> last == max
    ensures r.Some? ==> r.value == last + 1 && r.value <= max
  {
    if last < max then Some(last + 1) else None
  }

  /** What `.unwrap()` does with the checked sum: a value, or a panic. */
  datatype Unwrapped<T> = Value(v: T) | Panic

  /** Id allocation as written: `.ok_or(KittyIdOverflow).unwrap()`, which
      turns the overflow into a panic rather than the declared error. */
  function AllocateIdAsWritten(last: KittyIndex, max: KittyIndex): (r: Unwrapped<KittyIndex>)
    requires last <= max
    ensures r.Panic? <==> last == max
  {
    match CheckedNextId(last, max)
    case Some(id) => Value(id)
    case None => Panic
  }

  /** At the largest index the written code panics instead of returning `KittyIdOverflow`. */
  lemma AllocateIdAsWrittenPanicsAtMax(max: KittyIndex)
    ensures AllocateIdAsWritten(max, max) == Panic
    ensures AllocateId(max, max) == Failure(KittyIdOverflow)
  {
  }

  /** Id allocation as intended: the overflow is reported as `KittyIdOverflow`;
      otherwise the next id is one more than the last and above every id
      handed out so far. */
  function AllocateId(last: KittyIndex, max: KittyIndex): (r: Result<KittyIndex, Error>)
    requires last <= max
    ensures r.Failure? <==> last == max
    ensures r.Failure? ==> r.error == KittyIdOverflow
    ensures r.Success? ==> r.value == last + 1 && r.value <= max
  {
    match CheckedNextId(last, max)
    case Some(id) => Success(id)
    case None => Failure(KittyIdOverflow)
  }

  // ---------------------------------------------------------------------
  // Collateral: every held kitty has exactly one stake reserved for its owner
  // ---------------------------------------------------------------------

  /** The ids `who` owns. */
  function OwnedBy(owner: map<KittyIndex, AccountId>, who: AccountId): set<KittyIndex> {
    set id | id in owner && owner[id] == who
  }

  /** Every account has exactly `stake` reserved per kitty it owns (assuming
      no other pallet reserves from the same accounts). */
  ghost predicate Collateralized(ledger: Ledger, owner: map<KittyIndex, AccountId>, stake: Balance) {
    forall who :: ledger.Reserved(who) == stake * |OwnedBy(owner, who)|
  }

  /** Giving a new id to `newOwner` adds one kitty to `newOwner`'s holdings only. */
  lemma OwnedByMint(owner: map<KittyIndex, AccountId>, id: KittyIndex, newOwner: AccountId, who: AccountId)
    requires id !in owner
    ensures |OwnedBy(owner[id := newOwner], who)| == |OwnedBy(owner, who)| + (if who == newOwner then 1 else 0)
  {
    var before, after := OwnedBy(owner, who), OwnedBy(owner[id := newOwner], who);
    if who == newOwner {
      assert after == before + {id};
    } else {
      assert after == before;
    }
  }

  /** Reassigning an existing id moves one kitty from its old owner's
      holdings to the new owner's, and touches nobody else's. */
  lemma OwnedByReassign(owner: map<KittyIndex, AccountId>, id: KittyIndex, newOwner: AccountId, who: AccountId)
    requires id in owner
    ensures id in OwnedBy(owner, owner[id])
    ensures |OwnedBy(owner[id := newOwner], who)| + (if who == owner[id] then 1 else 0)
         == |OwnedBy(owner, who)| + (if who == newOwner then 1 else 0)
  {
    var before, after := OwnedBy(owner, who), OwnedBy(owner[id := newOwner], who);
    if who == newOwner && who == owner[id] {
      assert after == before;
    } else if who == newOwner {
      assert after == before + {id};
    } else if who == owner[id] {
      assert before == after + {id};
    } else {
      assert after == before;
    }
  }

  /** Minting a kitty for `sender` after reserving one stake from `sender`
      keeps every account exactly collateralized. */
  lemma MintKeepsCollateral(ledger: Ledger, owner: map<KittyIndex, AccountId>, stake: Balance,
                            id: KittyIndex, sender: AccountId)
    requires id !in owner
    requires Collateralized(ledger, owner, stake)
    requires ledger.Free(sender) >= stake
    ensures Collateralized(Reserve(ledger, sender, stake).value, owner[id := sender], stake)
  {
    var staked := Reserve(ledger, sender, stake).value;
    forall who ensures staked.Reserved(who) == stake * |OwnedBy(owner[id := sender], who)| {
      OwnedByMint(owner, id, sender, who);
      if who == sender {
        calc {
          staked.Reserved(who);
          ledger.Reserved(who) + stake;
          stake * |OwnedBy(owner, who)| + stake;
          stake * (|OwnedBy(owner, who)| + 1);
        }
      }
    }
  }

  lemma MulSucc(stake: nat, n: nat)
    ensures stake * (n + 1) == stake * n + stake
  {
  }

  /** One account's reserve after a kitty is handed from its owner to
      `newOwner`: one stake more for the new owner, one less for the old. */
  lemma ReassignReservedAt(ledger: Ledger, owner: map<KittyIndex, AccountId>, stake: Balance,
                           id: KittyIndex, newOwner: AccountId, who: AccountId)
    requires id in owner
    requires Collateralized(ledger, owner, stake)
    requires ledger.Free(newOwner) >= stake
    requires ledger.Reserved(owner[id]) >= stake
    ensures Unreserve(Reserve(ledger, newOwner, stake).value, owner[id], stake).Reserved(who)
         == stake * |OwnedBy(owner[id := newOwner], who)|
  {
    var seller := owner[id];
    var staked := Reserve(ledger, newOwner, stake).value;
    var after := Unreserve(staked, seller, stake);
    OwnedByReassign(owner, id, newOwner, who);
    var n := |OwnedBy(owner, who)|;
    if who == newOwner && who != seller {
      MulSucc(stake, n);
      assert after.Reserved(who) == ledger.Reserved(who) + stake;
    } else if who == seller && who != newOwner {
      MulSucc(stake, n - 1);
      assert after.Reserved(who) == ledger.Reserved(who) - stake;
    } else {
      assert after.Reserved(who) == ledger.Reserved(who);
    }
  }

  /** Handing a kitty from its owner to `newOwner` by reserving one stake from
      `newOwner` and then unreserving one stake from the old owner keeps every
      account exactly collateralized; the old owner's release is complete
      because they held at least this kitty's stake. */
  lemma ReassignKeepsCollateral(ledger: Ledger, owner: map<KittyIndex, AccountId>, stake: Balance,
                                id: KittyIndex, newOwner: AccountId)
    requires id in owner
    requires Collateralized(ledger, owner, stake)
    requires ledger.Free(newOwner) >= stake
    ensures var after := Unreserve(Reserve(ledger, newOwner, stake).value, owner[id], stake);
      && Collateralized(after, owner[id := newOwner], stake)
      && (newOwner != owner[id] ==>
            && after.Reserved(newOwner) == ledger.Reserved(newOwner) + stake
            && after.Reserved(owner[id]) == ledger.Reserved(owner[id]) - stake
            && after.Free(owner[id]) == ledger.Free(owner[id]) + stake)
  {
    var seller := owner[id];
    var held := OwnedBy(owner, seller);
    assert id in held;
    assert |held| >= 1 by {
      assert |held - {id}| + 1 == |held|;
    }
    MulSucc(stake, |held| - 1);
    assert ledger.Reserved(seller) >= stake;
    forall who
      ensures Unreserve(Reserve(ledger, newOwner, stake).value, seller, stake).Reserved(who)
           == stake * |OwnedBy(owner[id := newOwner], who)|
    {
      ReassignReservedAt(ledger, owner, stake, id, newOwner, who);
    }
  }

  // ---------------------------------------------------------------------
  // The pallet's storage and calls
  // ---------------------------------------------------------------------

  class Pallet {
    /** `KittyStake`: the collateral reserved per kitty held. */
    const kittyStake: Balance
    /** The largest value of `KittyIndex`. */
    const indexMax: KittyIndex
    /** The 128-bit hash of (random seed, account, extrinsic index). */
    const hash128: (Seed, AccountId, nat) -> Dna

    /** `LastKittyId`: the id of the most recently minted kitty, 0 before any. */
    var lastKittyId: KittyIndex
    /** `Kitties`: id to kitty. */
    var kitties: map<KittyIndex, Kitty>
    /** `KittyOwner`: id to owner. */
    var kittyOwner: map<KittyIndex, AccountId>
    /** `KittiesShop`: id to asking price; a missing entry or `None` means not for sale. */
    var kittiesShop: map<KittyIndex, Option<Balance>>
    /** The balances the `Currency` configuration reserves, unreserves and transfers. */
    var balances: Ledger
    /** Events deposited by successful calls, oldest first. */
    var events: seq<Event>

    /** Every kitty has an owner and an id in 1..lastKittyId; only owned
        kitties have shop entries. */
    ghost predicate Valid()
      reads this
    {
      && lastKittyId <= indexMax
      && kitties.Keys == kittyOwner.Keys
      && (forall id :: id in kitties ==> 1 <= id <= lastKittyId)
      && kittiesShop.Keys <= kittyOwner.Keys
    }

    /** Each account has exactly one stake reserved per kitty it owns. */
    ghost predicate Staked()
      reads this
    {
      Collateralized(balances, kittyOwner, kittyStake)
    }

    /** Genesis: no kitties and `LastKittyId` at its default of 0, over the
        balances ledger as it stands. The collateral invariant holds from the
        start when nothing is reserved in that ledger yet. */
    constructor (kittyStake: Balance, indexMax: KittyIndex, hash128: (Seed, AccountId, nat) -> Dna, genesis: Ledger)
      requires indexMax >= U32_MAX
      ensures Valid()
      ensures (forall who :: genesis.Reserved(who) == 0) ==> Staked()
      ensures this.kittyStake == kittyStake && this.indexMax == indexMax && this.hash128 == hash128
      ensures lastKittyId == 0 && kitties == map[] && kittyOwner == map[] && kittiesShop == map[]
      ensures balances == genesis && events == []
    {
      this.kittyStake := kittyStake;
      this.indexMax := indexMax;
      this.hash128 := hash128;
      lastKittyId := 0;
      kitties := map[];
      kittyOwner := map[];
      kittiesShop := map[];
      balances := genesis;
      events := [];
    }

    /** `random_value`: 16 bytes derived from the block's random seed, the
        caller and the extrinsic index. */
    function RandomValue(sender: AccountId, seed: Seed, extrinsicIndex: nat): (dna: Dna)
      ensures dna == hash128(seed, sender, extrinsicIndex)
    {
      hash128(seed, sender, extrinsicIndex)
    }

    /** `kitty_of_id`: the stored kitty, found exactly when the id has an owner. */
    function KittyOfId(kittyId: KittyIndex): (r: Option<Kitty>)
      reads this
      requires Valid()
      ensures r.Some? <==> kittyId in kittyOwner
      ensures r.Some? ==> 1 <= kittyId <= lastKittyId && r.value == kitties[kittyId]
    {
      Get(kitties, kittyId)
    }

    /** `KittiesShop::get` on a map whose missing entries read as the default
        `None`: a price exactly when an entry is stored and that entry is a
        price; a missing entry and a stored `None` both mean not for sale. */
    function ShopPrice(kittyId: KittyIndex): (r: Option<Balance>)
      reads this
      ensures r.Some? <==> kittyId in kittiesShop && kittiesShop[kittyId].Some?
      ensures r.Some? ==> r == kittiesShop[kittyId]
      ensures kittyId !in kittiesShop ==> r == None
    {
      if kittyId in kittiesShop then kittiesShop[kittyId] else None
    }

    /** `new_kitty_with_stake`: reserve the stake, allocate the next id, store
        the kitty and its owner. The stake is checked first, then the id. */
    method NewKittyWithStake(sender: AccountId, dna: Dna) returns (r: DispatchResult<DispatchError>)
      requires Valid()
      modifies this
      ensures Valid()
      ensures old(Staked()) ==> Staked()
      ensures r.Ok? <==> old(balances.Free(sender)) >= kittyStake && old(lastKittyId) < indexMax
      ensures old(balances.Free(sender)) < kittyStake ==> r == Err(Module(NotEnoughBalance))
      ensures old(balances.Free(sender)) >= kittyStake && old(lastKittyId) == indexMax ==> r == Err(Module(KittyIdOverflow))
      ensures r.Ok? ==>
        && lastKittyId == old(lastKittyId) + 1
        && lastKittyId !in old(kitties)
        && (forall id :: id in old(kitties) ==> id < lastKittyId)
        && kitties == old(kitties)[lastKittyId := Kitty(dna)]
        && kittyOwner == old(kittyOwner)[lastKittyId := sender]
        && kittiesShop == old(kittiesShop)
        && Reserve(old(balances), sender, kittyStake) == Some(balances)
        && events == old(events) + [KittyCreated(sender, lastKittyId)]
      ensures r.Err? ==> unchanged(this)
    {
      var staked := Reserve(balances, sender, kittyStake);
      if staked.None? {
        return Err(Module(NotEnoughBalance));
      }
      var next := AllocateId(lastKittyId, indexMax);
      if next.Failure? {
        // the reserve above is not committed: the call is rolled back whole
        return Err(Module(next.error));
      }
      var kittyId := next.value;
      if Staked() {
        MintKeepsCollateral(balances, kittyOwner, kittyStake, kittyId, sender);
      }
      kitties := kitties[kittyId := Kitty(dna)];
      kittyOwner := kittyOwner[kittyId := sender];
      lastKittyId := kittyId;
      balances := staked.value;
      events := events + [KittyCreated(sender, kittyId)];
      r := Ok;
    }

    /** `create`: mint a kitty with random DNA for the caller. */
    method Create(sender: AccountId, seed: Seed, extrinsicIndex: nat) returns (r: DispatchResult<DispatchError>)
      requires Valid()
      modifies this
      ensures Valid()
      ensures old(Staked()) ==> Staked()
      ensures r.Ok? <==> old(balances.Free(sender)) >= kittyStake && old(lastKittyId) < indexMax
      ensures old(balances.Free(sender)) < kittyStake ==> r == Err(Module(NotEnoughBalance))
      ensures old(balances.Free(sender)) >= kittyStake && old(lastKittyId) == indexMax ==> r == Err(Module(KittyIdOverflow))
      ensures r.Ok? ==>
        && lastKittyId == old(lastKittyId) + 1
        && lastKittyId !in old(kitties)
        && (forall id :: id in old(kitties) ==> id < lastKittyId)
        && kitties == old(kitties)[lastKittyId := Kitty(RandomValue(sender, seed, extrinsicIndex))]
        && kittyOwner == old(kittyOwner)[lastKittyId := sender]
        && kittiesShop == old(kittiesShop)
        && Reserve(old(balances), sender, kittyStake) == Some(balances)
        && events == old(events) + [KittyCreated(sender, lastKittyId)]
      ensures r.Err? ==> unchanged(this)
    {
      var dna := RandomValue(sender, seed, extrinsicIndex);
      r := NewKittyWithStake(sender, dna);
    }

    /** `breed`: the parents must differ and both exist; the child's DNA mixes
        theirs under a random selector and is minted for the caller like a
        created kitty. The caller need not own either parent. */
    method Breed(sender: AccountId, kittyId1: KittyIndex, kittyId2: KittyIndex, seed: Seed, extrinsicIndex: nat)
      returns (r: DispatchResult<DispatchError>)
      requires Valid()
      modifies this
      ensures Valid()
      ensures old(Staked()) ==> Staked()
      ensures kittyId1 == kittyId2 ==> r == Err(Module(SameKittyId))
      ensures kittyId1 != kittyId2 && (kittyId1 !in old(kitties) || kittyId2 !in old(kitties)) ==>
        r == Err(Module(InvalidKittyId))
      ensures kittyId1 != kittyId2 && kittyId1 in old(kitties) && kittyId2 in old(kitties) ==>
        && (old(balances.Free(sender)) < kittyStake ==> r == Err(Module(NotEnoughBalance)))
        && (old(balances.Free(sender)) >= kittyStake && old(lastKittyId) == indexMax ==> r == Err(Module(KittyIdOverflow)))
      ensures r.Ok? <==>
        && kittyId1 != kittyId2 && kittyId1 in old(kitties) && kittyId2 in old(kitties)
        && old(balances.Free(sender)) >= kittyStake && old(lastKittyId) < indexMax
      ensures r.Ok? ==>
        && lastKittyId == old(lastKittyId) + 1
        && lastKittyId !in old(kitties)
        && (forall id :: id in old(kitties) ==> id < lastKittyId)
        && kitties == old(kitties)[lastKittyId := Kitty(Mix(old(kitties)[kittyId1].dna, old(kitties)[kittyId2].dna,
                                                         RandomValue(sender, seed, extrinsicIndex)))]
        && kittyOwner == old(kittyOwner)[lastKittyId := sender]
        && kittiesShop == old(kittiesShop)
        && Reserve(old(balances), sender, kittyStake) == Some(balances)
        && events == old(events) + [KittyCreated(sender, lastKittyId)]
      ensures r.Err? ==> unchanged(this)
    {
      if kittyId1 == kittyId2 {
        return Err(Module(SameKittyId));
      }
      var kitty1 := KittyOfId(kittyId1);
      if kitty1.None? {
        return Err(Module(InvalidKittyId));
      }
      var kitty2 := KittyOfId(kittyId2);
      if kitty2.None? {
        return Err(Module(InvalidKittyId));
      }
      var selector := RandomValue(sender, seed, extrinsicIndex);
      var newDna := MixDna(kitty1.value.dna, kitty2.value.dna, selector);
      r := NewKittyWithStake(sender, newDna);
    }

    /** `transfer`: the kitty must exist and belong to the caller; the new
        owner's stake is reserved before the caller's is released. The shop
        entry is left as it was. */
    method Transfer(sender: AccountId, kittyId: KittyIndex, newOwner: AccountId) returns (r: DispatchResult<DispatchError>)
      requires Valid()
      modifies this
      ensures Valid()
      ensures old(Staked()) ==> Staked()
      ensures kittyId !in old(kitties) ==> r == Err(Module(InvalidKittyId))
      ensures kittyId in old(kitties) && old(kittyOwner[kittyId]) != sender ==> r == Err(Module(NotOwner))
      ensures kittyId in old(kitties) && old(kittyOwner[kittyId]) == sender && old(balances.Free(newOwner)) < kittyStake ==>
        r == Err(Module(NotEnoughBalance))
      ensures r.Ok? <==>
        kittyId in old(kitties) && old(kittyOwner[kittyId]) == sender && old(balances.Free(newOwner)) >= kittyStake
      ensures r.Ok? ==>
        && kittyOwner == old(kittyOwner)[kittyId := newOwner]
        && kitties == old(kitties) && lastKittyId == old(lastKittyId) && kittiesShop == old(kittiesShop)
        && balances == Unreserve(Reserve(old(balances), newOwner, kittyStake).value, sender, kittyStake)
        && events == old(events) + [KittyTransferred(sender, newOwner, kittyId)]
      ensures r.Ok? && old(Staked()) && sender != newOwner ==>
        && balances.Reserved(newOwner) == old(balances.Reserved(newOwner)) + kittyStake
        && balances.Reserved(sender) == old(balances.Reserved(sender)) - kittyStake
        && balances.Free(newOwner) == old(balances.Free(newOwner)) - kittyStake
        && balances.Free(sender) == old(balances.Free(sender)) + kittyStake
      ensures r.Err? ==> unchanged(this)
    {
      if KittyOfId(kittyId).None? {
        return Err(Module(InvalidKittyId));
      }
      if Get(kittyOwner, kittyId) != Some(sender) {
        return Err(Module(NotOwner));
      }
      var staked := Reserve(balances, newOwner, kittyStake);
      if staked.None? {
        return Err(Module(NotEnoughBalance));
      }
      var released := Unreserve(staked.value, sender, kittyStake);
      if Staked() {
        ReassignKeepsCollateral(balances, kittyOwner, kittyStake, kittyId, newOwner);
      }
      balances := released;
      kittyOwner := kittyOwner[kittyId := newOwner];
      events := events + [KittyTransferred(sender, newOwner, kittyId)];
      r := Ok;
    }

    /** `sell`: only the owner may set the asking price; `None` takes the
        kitty off sale. A missing kitty has no owner, so it fails the same way. */
    method Sell(seller: AccountId, kittyId: KittyIndex, price: Option<Balance>) returns (r: DispatchResult<DispatchError>)
      requires Valid()
      modifies this
      ensures Valid()
      ensures old(Staked()) ==> Staked()
      ensures r.Ok? <==> Get(old(kittyOwner), kittyId) == Some(seller)
      ensures r.Err? ==> r == Err(Module(NotOwner)) && unchanged(this)
      ensures r.Ok? ==>
        && kittiesShop == old(kittiesShop)[kittyId := price]
        && ShopPrice(kittyId) == price
        && kitties == old(kitties) && kittyOwner == old(kittyOwner) && lastKittyId == old(lastKittyId)
        && balances == old(balances)
        && events == old(events) + [KittyInSell(seller, kittyId, price)]
    {
      if Get(kittyOwner, kittyId) != Some(seller) {
        return Err(Module(NotOwner));
      }
      kittiesShop := kittiesShop[kittyId := price];
      events := events + [KittyInSell(seller, kittyId, price)];
      r := Ok;
    }

    /** The checks `buy` makes before it moves any balance, in their order. */
    ghost predicate BuyChecksPass(buyer: AccountId, kittyId: KittyIndex)
      reads this
    {
      && kittyId in kittyOwner
      && kittyOwner[kittyId] != buyer
      && ShopPrice(kittyId).Some?
      && balances.Free(buyer) > ShopPrice(kittyId).value + kittyStake
    }

    /** `buy`: the kitty must have an owner other than the buyer and an asking
        price, and the buyer's free balance must exceed price plus stake. The
        buyer's stake is reserved, the seller's released, the price paid with
        the keep-alive requirement, and the owner rewritten; the shop entry is
        left as it was. */
    method Buy(buyer: AccountId, kittyId: KittyIndex) returns (r: DispatchResult<DispatchError>)
      requires Valid()
      modifies this
      ensures Valid()
      ensures old(Staked()) ==> Staked()
      ensures kittyId !in old(kittyOwner) ==> r == Err(Module(InvalidKittyId))
      ensures kittyId in old(kittyOwner) && old(kittyOwner[kittyId]) == buyer ==> r == Err(Module(NoBuySelf))
      ensures kittyId in old(kittyOwner) && old(kittyOwner[kittyId]) != buyer && old(ShopPrice(kittyId)).None? ==>
        r == Err(Module(NotForSale))
      ensures kittyId in old(kittyOwner) && old(kittyOwner[kittyId]) != buyer && old(ShopPrice(kittyId)).Some? &&
              old(balances.Free(buyer)) <= old(ShopPrice(kittyId)).value + kittyStake ==>
        r == Err(Module(NotEnoughBalance))
      ensures old(BuyChecksPass(buyer, kittyId)) ==>
        (r.Ok? <==> old(ShopPrice(kittyId)).value == 0 ||
                    old(balances.Free(buyer)) - kittyStake >= old(ShopPrice(kittyId)).value + balances.minBalance)
      ensures old(BuyChecksPass(buyer, kittyId)) && r.Err? ==> r == Err(BalancesTransferFailed)
      ensures r.Ok? ==> old(BuyChecksPass(buyer, kittyId))
      ensures r.Ok? ==>
        && kittyOwner == old(kittyOwner)[kittyId := buyer]
        && kitties == old(kitties) && lastKittyId == old(lastKittyId) && kittiesShop == old(kittiesShop)
        && events == old(events) + [KittyTransferred(old(kittyOwner[kittyId]), buyer, kittyId)]
      ensures r.Ok? ==>
        var seller, price := old(kittyOwner[kittyId]), old(ShopPrice(kittyId)).value;
        && balances.Free(buyer) == old(balances.Free(buyer)) - kittyStake - price
        && balances.Reserved(buyer) == old(balances.Reserved(buyer)) + kittyStake
        && balances.Free(seller) + balances.Reserved(seller) == old(balances.Free(seller) + balances.Reserved(seller)) + price
        && (forall who :: who != buyer && who != seller ==>
              balances.Free(who) == old(balances.Free(who)) && balances.Reserved(who) == old(balances.Reserved(who)))
        && Some(balances) == TransferKeepAlive(Unreserve(Reserve(old(balances), buyer, kittyStake).value, seller, kittyStake),
                                               buyer, seller, price)
        && (old(Staked()) ==>
              && balances.Free(seller) == old(balances.Free(seller)) + kittyStake + price
              && balances.Reserved(seller) == old(balances.Reserved(seller)) - kittyStake)
      ensures r.Err? ==> unchanged(this)
    {
      var owner := Get(kittyOwner, kittyId);
      if owner.None? {
        return Err(Module(InvalidKittyId));
      }
      var seller := owner.value;
      if buyer == seller {
        return Err(Module(NoBuySelf));
      }
      var listed := ShopPrice(kittyId);
      if listed.None? {
        return Err(Module(NotForSale));
      }
      var price := listed.value;
      if !(balances.Free(buyer) > price + kittyStake) {
        return Err(Module(NotEnoughBalance));
      }
      var staked := Reserve(balances, buyer, kittyStake);
      if staked.None? {
        return Err(Module(NotEnoughBalance));
      }
      var released := Unreserve(staked.value, seller, kittyStake);
      var paid := TransferKeepAlive(released, buyer, seller, price);
      if paid.None? {
        return Err(BalancesTransferFailed);
      }
      if Staked() {
        ReassignKeepsCollateral(balances, kittyOwner, kittyStake, kittyId, buyer);
      }
      balances := paid.value;
      kittyOwner := kittyOwner[kittyId := buyer];
      events := events + [KittyTransferred(seller, buyer, kittyId)];
      r := Ok;
    }
  }
}
