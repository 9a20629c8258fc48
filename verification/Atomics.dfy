/** The shared objects the machines run on. Each method is one indivisible instruction. */
module Atomics {

  /** A `std::atomic`, sequentially consistent. */
  class Atomic<T(==)> {
    var value: T

    constructor (v: T)
      ensures value == v
    {
      value := v;
    }

    method Load() returns (v: T)
      ensures v == value
    {
      v := value;
    }

    method Store(v: T)
      modifies this
      ensures value == v
    {
      value := v;
    }

    /** A compare-exchange; the weak one may be `flaky` and fail on an equal value. */
    method CompareExchange(expected: T, desired: T, flaky: bool) returns (ok: bool, seen: T)
      modifies this
      ensures ok <==> old(value) == expected && !flaky
      ensures seen == old(value)
      ensures value == if ok then desired else old(value)
    {
      seen := value;
      ok := seen == expected && !flaky;
      if ok {
        value := desired;
      }
    }

    /** A fetch-and-modify: `fetch_add`, `fetch_sub` or `fetch_and`, by the function it applies. */
    method FetchUpdate(f: T -> T) returns (prev: T)
      modifies this
      ensures prev == old(value) && value == f(prev)
    {
      prev := value;
      value := f(prev);
    }
  }

  /** Largest value an eventfd counter can hold; a write that would pass it fails. */
  const EVENTFD_MAX: nat := 0xffff_ffff_ffff_fffe

  /** An eventfd in nonblocking semaphore mode. */
  class Eventfd {
    var counter: nat

    constructor ()
      ensures counter == 0
    {
      counter := 0;
    }

    /** Takes one token if there is one. */
    method Read() returns (ok: bool)
      modifies this
      ensures ok <==> old(counter) > 0
      ensures counter == if ok then old(counter) - 1 else 0
    {
      ok := counter > 0;
      if ok {
        counter := counter - 1;
      }
    }

    method Write()
      modifies this
      ensures counter == if old(counter) < EVENTFD_MAX then old(counter) + 1 else old(counter)
    {
      if counter < EVENTFD_MAX {
        counter := counter + 1;
      }
    }

    /** Whether `poll` reports the descriptor readable. */
    method Readable() returns (r: bool)
      ensures r <==> counter > 0
    {
      r := counter > 0;
    }
  }

  /** An EVFILT_USER event registered with EV_CLEAR: one bit, set by a trigger and cleared by its delivery. */
  class UserEvent {
    var pending: bool

    constructor (b: bool)
      ensures pending == b
    {
      pending := b;
    }

    method Trigger()
      modifies this
      ensures pending
    {
      pending := true;
    }

    method Receive() returns (ok: bool)
      modifies this
      ensures ok == old(pending) && !pending
    {
      ok := pending;
      pending := false;
    }
  }
}
