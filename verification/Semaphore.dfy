/** The counting semaphore: a buffered channel of `capacity` slots. */
module Semaphore {

  class Semaphore {
    const capacity: nat
    var used: nat

    ghost predicate Valid()
      reads this
    {
      used <= capacity
    }

    constructor (max: nat)
      ensures Valid() && capacity == max && used == 0
    {
      capacity, used := max, 0;
    }

    /** The send, once there is room for it. */
    method Acquire()
      requires Valid() && used < capacity
      modifies this
      ensures Valid() && used == old(used) + 1
    {
      used := used + 1;
    }

    /** Takes a permit if there is one by the time the wait ends. */
    method TryAcquire() returns (ok: bool)
      requires Valid()
      modifies this
      ensures Valid() && ok == (old(used) < capacity)
      ensures used == if ok then old(used) + 1 else old(used)
    {
      ok := used < capacity;
      if ok {
        used := used + 1;
      }
    }

    /** The receive; it does not block while a permit is in use. */
    method Release()
      requires Valid() && used > 0
      modifies this
      ensures Valid() && used == old(used) - 1
    {
      used := used - 1;
    }

    function Available(): (n: nat)
      requires Valid()
      reads this
      ensures Used() + n == capacity
    {
      capacity - used
    }

    function Used(): nat
      reads this
    {
      used
    }
  }
}
