/** The four parking mutex classes as one object: the atomic word, and the threads that use it. */
module ParkingMutexObject {
  import opened AbstractLock
  import opened Atomics
  import opened LockWords
  import opened ParkingMutex
  import opened Runs
  import opened ThreadMaps
  import opened Words

  class Mutex {
    const variant: Variant
    const state: Atomic<LockWord>
    var threads: map<Tid, Pc>
    ghost var log: seq<Action>

    constructor (variant: Variant, users: set<Tid>)
      requires |users| < TWO31
      ensures fresh(state) && View() == Init(variant, users) && Inv(View())
    {
      this.variant := variant;
      state := new Atomic(FREE);
      threads := map t | t in users :: Idle;
      log := [];
      new;
      ReachableInv(variant, users, []);
    }

    ghost function View(): State
      reads this, state
    {
      State(variant, state.value, threads, log)
    }

    /** One instruction of a fast path, of the spin phase, or the `fetch_and` of `unlock`. */
    method FastPath(t: Tid, c: Choice)
      requires t in threads && !Registers(threads[t]) && !threads[t].Notify? && !threads[t].Idle?
      modifies this`threads, state
      ensures threads == old(threads)[t := ActFast(variant, old(threads[t]), old(state.value), c).0]
      ensures state.value == ActFast(variant, old(threads[t]), old(state.value), c).1
    {
      match threads[t] {
        case FastCas =>
          var ok, seen := state.CompareExchange(FREE, FREE.Locked(), !c.Go?);
          threads := threads[t := if ok then Holding else if variant.backoff then Spin(seen) else Register(false)];
        case Spin(expected) =>
          if !expected.locked {
            var ok, seen := state.CompareExchange(expected, expected.Locked(), !c.Go?);
            threads := threads[t := if ok then Holding else Spin(seen)];
          } else {
            threads := threads[t := if c.Expire? then Register(false) else Spin(expected)];
          }
        case TryCas(until) =>
          var ok, _ := state.CompareExchange(FREE, FREE.Locked(), false);
          threads := threads[t := if ok then Holding else if until then Register(true) else Idle];
        case Holding =>
          if c.Go? {
            var prev := state.FetchUpdate((w: LockWord) => w.Unlocked());
            threads := threads[t := if prev.waiters > 0 then Notify else Idle];
          }
      }
    }

    /** One instruction of `lock_slow` or `lock_slow_until` from the registration on. */
    method WaitLoop(t: Tid, c: Choice)
      requires t in threads && Registers(threads[t])
      modifies this`threads, state
      ensures threads == old(threads)[t := ActWait(old(threads[t]), old(state.value), c).0]
      ensures state.value == ActWait(old(threads[t]), old(state.value), c).1
    {
      match threads[t] {
        case Register(timed) =>
          var _ := state.FetchUpdate((w: LockWord) => w.AddWaiter());
          threads := threads[t := Reload(timed)];
        case Reload(timed) =>
          var s := state.Load();
          threads := threads[t := Loop(timed, s)];
        case Loop(timed, expected) =>
          if !expected.locked {
            var ok, seen := state.CompareExchange(expected, expected.RemoveWaiter().Locked(), !c.Go?);
            threads := threads[t := if ok then Holding else Loop(timed, seen)];
          } else if c.Expire? && timed {
            threads := threads[t := GiveUpLoad];
          } else if c.Flake? {
            threads := threads[t := Reload(timed)];
          } else if c.Go? {
            var seen := state.Load();
            threads := threads[t := if seen == expected then Parked(timed, expected) else Reload(timed)];
          }
        case Parked(timed, expected) =>
          if c.Expire? && timed {
            threads := threads[t := GiveUpLoad];
          } else if c.Flake? {
            threads := threads[t := Loop(timed, expected)];
          }
        case GiveUpLoad =>
          var s := state.Load();
          threads := threads[t := GiveUp(s)];
        case GiveUp(expected) =>
          var desired := if expected.locked then expected.RemoveWaiter() else expected.RemoveWaiter().Locked();
          var ok, seen := state.CompareExchange(expected, desired, !c.Go?);
          threads := threads[t := if !ok then GiveUp(seen) else if expected.locked then Idle else Holding];
      }
    }

    /** The futex wake of `unlock`. */
    method WakeOne(t: Tid, c: Choice)
      requires t in threads && threads[t].Notify?
      modifies this`threads
      ensures View() == NotifyOne(old(View()), t, c)
    {
      if c.Wake? && c.w in threads && threads[c.w].Parked? {
        threads := threads[t := Idle][c.w := Woken(threads[c.w])];
      } else if NoSleepers(threads) {
        threads := threads[t := Idle];
      }
    }

    method Advance(t: Tid, c: Choice)
      requires t in threads
      modifies this, state
      ensures View() == Step(old(View()), Do(t, c))
    {
      var pc := threads[t];
      if pc.Notify? {
        WakeOne(t, c);
      } else {
        if pc.Idle? {
          threads := threads[t := if c.Call? then Enter(variant, c.op) else Idle];
        } else if Registers(pc) {
          WaitLoop(t, c);
        } else {
          FastPath(t, c);
        }
        ghost var takes, drops := Holds(threads[t]) && !Holds(pc), !Holds(threads[t]) && Holds(pc);
        log := if takes then log + [Acquire(t)] else if drops then log + [Release(t)] else log;
      }
    }

    /** Any schedule, interleaving the instructions of all threads, keeps the invariant. */
    method Schedule(es: seq<Event>)
      requires Inv(View())
      modifies this, state
      ensures View() == Run(Step, old(View()), es) && Inv(View())
    {
      for i := 0 to |es|
        invariant Inv(View()) && Run(Step, View(), es[i..]) == Run(Step, old(View()), es)
      {
        assert es[i..][0] == es[i] && es[i..][1..] == es[i + 1..];
        StepKeepsInv(View(), es[i]);
        if es[i].t in threads {
          Advance(es[i].t, es[i].c);
        }
      }
    }
  }
}
