/** The part of the balances ledger that the kitties pallet reaches through
    its `Currency` / `ReservableCurrency` configuration: free and reserved
    balances per account, reserve, unreserve and a keep-alive transfer.

    The real implementation belongs to another pallet; this module states only
    the contract the kitties pallet relies on. Every operation is a pure
    function from one ledger to the next, so a caller commits the new ledger
    only when its whole call succeeds. */
module Balances {
  import opened Support

  type AccountId = nat
  type Balance = nat

  function Min(a: nat, b: nat): nat { if a <= b then a else b }

  /** `free` and `reserved` hold per-account balances; an account missing
      from either map reads as zero there. `minBalance` is the balance a keep-alive transfer must
      leave behind in the sending account. */
  datatype Ledger = Ledger(free: map<AccountId, Balance>, reserved: map<AccountId, Balance>, minBalance: Balance)
  {
    function Free(who: AccountId): Balance {
      if who in free then free[who] else 0
    }

    function Reserved(who: AccountId): Balance {
      if who in reserved then reserved[who] else 0
    }
  }

  /** Moves `amount` from the free to the reserved balance of `who`; fails,
      changing nothing, when the free balance is below `amount`. */
  function Reserve(l: Ledger, who: AccountId, amount: Balance): (r: Option<Ledger>)
    ensures r.Some? <==> l.Free(who) >= amount
    ensures r.Some? ==> r.value.Free(who) == l.Free(who) - amount
    ensures r.Some? ==> r.value.Reserved(who) == l.Reserved(who) + amount
    ensures r.Some? ==> r.value.minBalance == l.minBalance
    ensures r.Some? ==> forall a :: a != who ==> r.value.Free(a) == l.Free(a) && r.value.Reserved(a) == l.Reserved(a)
  {
    if l.Free(who) < amount then None
    else Some(l.(free := l.free[who := l.Free(who) - amount],
                 reserved := l.reserved[who := l.Reserved(who) + amount]))
  }

  /** Moves back to the free balance as much of `amount` as is reserved for
      `who`; never fails, and is a no-op when nothing is reserved. */
  function Unreserve(l: Ledger, who: AccountId, amount: Balance): (r: Ledger)
    ensures r.Reserved(who) == l.Reserved(who) - Min(amount, l.Reserved(who))
    ensures r.Free(who) == l.Free(who) + Min(amount, l.Reserved(who))
    ensures r.Free(who) + r.Reserved(who) == l.Free(who) + l.Reserved(who)
    ensures r.minBalance == l.minBalance
    ensures forall a :: a != who ==> r.Free(a) == l.Free(a) && r.Reserved(a) == l.Reserved(a)
  {
    var actual := Min(amount, l.Reserved(who));
    l.(free := l.free[who := l.Free(who) + actual],
       reserved := l.reserved[who := l.Reserved(who) - actual])
  }

  /** A transfer of free balance with the keep-alive requirement: it fails,
      changing nothing, unless the sender keeps at least `minBalance` after
      paying. Paying zero or paying oneself succeeds and changes nothing.
      Reserved balances are never touched. */
  function TransferKeepAlive(l: Ledger, from: AccountId, to: AccountId, amount: Balance): (r: Option<Ledger>)
    ensures r.Some? <==> amount == 0 || from == to || l.Free(from) >= amount + l.minBalance
    ensures r.Some? && from != to ==> r.value.Free(from) == l.Free(from) - amount
    ensures r.Some? && from != to ==> r.value.Free(to) == l.Free(to) + amount
    ensures r.Some? ==> r.value.minBalance == l.minBalance
    ensures r.Some? ==> forall a :: r.value.Reserved(a) == l.Reserved(a)
    ensures r.Some? ==> forall a :: a != from && a != to ==> r.value.Free(a) == l.Free(a)
    ensures r.Some? && (amount == 0 || from == to) ==> r.value == l
  {
    if amount == 0 || from == to then Some(l)
    else if l.Free(from) < amount + l.minBalance then None
    else
      var debited := l.free[from := l.Free(from) - amount];
      Some(l.(free := debited[to := l.Free(to) + amount]))
  }
}
