/** The template pallet: one optional `u32` storage value, `Something`,
    that a caller can set, or increment with overflow checking. */
module Template {
  import opened Support

  type AccountId = nat

  const U32_MAX: int := 0xFFFF_FFFF

  newtype u32 = x: int | 0 <= x <= 0xFFFF_FFFF

  datatype Event = SomethingStored(something: u32, who: AccountId)

  datatype Error = NoneValue | StorageOverflow

  /** `u32::checked_add`: the sum when it fits in 32 bits, `None` otherwise. */
  function CheckedAdd(x: u32, y: u32): (r: Option<u32>)
    ensures r.None? <==> x as int + y as int > U32_MAX
    ensures r.Some? ==> r.value as int == x as int + y as int
    ensures r.Some? ==> r.value >= x && r.value >= y
  {
    var sum := x as int + y as int;
    if sum <= U32_MAX then Some(sum as u32) else None
  }

  class Pallet {
    /** `Something`: unset (`None`) until the first `do_something`. */
    var something: Option<u32>
    /** Events deposited by successful calls, oldest first. */
    var events: seq<Event>

    constructor ()
      ensures something == None && events == []
    {
      something := None;
      events := [];
    }

    /** `do_something`: store the value unconditionally and record who stored it. */
    method DoSomething(who: AccountId, value: u32) returns (r: DispatchResult<Error>)
      modifies this
      ensures r == Ok
      ensures something == Some(value)
      ensures events == old(events) + [SomethingStored(value, who)]
    {
      something := Some(value);
      events := events + [SomethingStored(value, who)];
      r := Ok;
    }

    /** `cause_error`: fails with `NoneValue` while unset and with
        `StorageOverflow` at `u32::MAX`; otherwise increments the value.
        Deposits no event. */
    method CauseError(who: AccountId) returns (r: DispatchResult<Error>)
      modifies this
      ensures old(something) == None ==> r == Err(NoneValue)
      ensures old(something) == Some(U32_MAX as u32) ==> r == Err(StorageOverflow)
      ensures r.Ok? <==> old(something).Some? && old(something).value as int < U32_MAX
      ensures r.Ok? ==> something == Some(old(something).value + 1) && events == old(events)
      ensures r.Err? ==> unchanged(this)
    {
      match something {
        case None =>
          return Err(NoneValue);
        case Some(current) =>
          var incremented := CheckedAdd(current, 1);
          if incremented.None? {
            return Err(StorageOverflow);
          }
          something := Some(incremented.value);
          r := Ok;
      }
    }
  }
}
