/** `createSlotLimiter` (src/util/slot-limiter.ts): check and increment in one step. */
module SlotLimiting {

  /** What `release` does to the counter; it never goes below zero. */
  function Released(used: nat): nat {
    if used > 0 then used - 1 else used
  }

  class SlotLimiter {
    const max: nat
    var used: nat

    constructor (max: nat)
      ensures this.max == max && used == 0
    {
      this.max, used := max, 0;
    }

    method Reserve() returns (ok: bool)
      modifies this
      ensures ok <==> old(used) < max
      ensures used == old(used) + if ok then 1 else 0
    {
      if used >= max {
        return false;
      }
      used := used + 1;
      return true;
    }

    method Release()
      modifies this
      ensures used == Released(old(used))
    {
      if used > 0 {
        used := used - 1;
      }
    }
  }
}
