/** `fast_eventfd_mutex_impl` as an object: its atomic word, its eventfd and the threads that use it. */
module FastEventfdMutexes {
  import opened Atomics
  import opened EventfdMutex
  import opened LockWords
  import opened Runs
  import opened ThreadMaps
  import opened Words

  class FastEventfdMutex {
    const state: Atomic<LockWord>
    const evfd: Eventfd
    var threads: map<Tid, Pc>
    var cancelled: set<Tid>
    ghost var begun: multiset<Tid>
    ghost var taken: multiset<Tid>
    ghost var granted: multiset<Tid>
    ghost var handled: multiset<Tid>

    constructor (users: set<Tid>)
      requires |users| < TWO31
      ensures fresh(state) && fresh(evfd)
      ensures View() == Init(users) && Inv(View())
    {
      state := new Atomic(FREE);
      evfd := new Eventfd();
      threads := map t | t in users :: Idle;
      cancelled := {};
      begun, taken, granted, handled := multiset{}, multiset{}, multiset{}, multiset{};
      new;
      ReachableInv(users, []);
    }

    ghost function Memory(): Shared
      reads state, evfd
    {
      Shared(state.value, evfd.counter)
    }

    ghost function View(): State
      reads this, state, evfd
    {
      State(Memory(), threads, cancelled, begun, taken, granted, handled)
    }

    /** One instruction of `lock` or of a spin phase. */
    method Spinning(t: Tid, c: Choice)
      requires t in threads && InSpin(threads[t])
      modifies this`threads, state
      ensures threads == old(threads)[t := ActSpin(old(threads[t]), old(Memory()), c).0]
      ensures Memory() == ActSpin(old(threads[t]), old(Memory()), c).1
    {
      match threads[t] {
        case FastCas =>
          var ok, _ := state.CompareExchange(FREE, FREE.Locked(), !c.Go?);
          threads := threads[t := if ok then Holding else SpinLoad(Untimed)];
        case SpinLoad(mode) =>
          var s := state.Load();
          threads := threads[t := Spin(mode, s)];
        case Spin(mode, s) =>
          if !s.locked {
            var ok, seen := state.CompareExchange(s, s.Locked(), !c.Go?);
            threads := threads[t := if ok then Holding else Spin(mode, seen)];
          } else {
            threads := threads[t := if c.Expire? then Register(mode) else Spin(mode, s)];
          }
      }
    }

    /** One instruction of the registered wait loop. */
    method WaitLoop(t: Tid, c: Choice)
      requires t in threads && InWait(threads[t])
      modifies this`threads, state, evfd
      ensures threads == old(threads)[t := ActWait(old(threads[t]), old(Memory()), c).0]
      ensures Memory() == ActWait(old(threads[t]), old(Memory()), c).1
    {
      match threads[t] {
        case Register(mode) =>
          var prev := state.FetchUpdate((w: LockWord) => w.AddWaiter());
          threads := threads[t := Loop(mode, prev.AddWaiter())];
        case Loop(mode, s) =>
          if !s.locked {
            var ok, seen := state.CompareExchange(s, s.RemoveWaiter().Locked(), !c.Go?);
            threads := threads[t := if ok then AcquiredDrain else Loop(mode, seen)];
          } else {
            var readable := evfd.Readable();
            if c.Flake? || (c.Go? && readable) {
              threads := threads[t := Drain(mode)];
            } else if c.Expire? && mode.TimedFor? {
              threads := threads[t := Leave(false)];
            } else if c.Expire? && mode.TimedUntil? {
              threads := threads[t := TryLoad(UntilExpired)];
            }
          }
        case Drain(mode) =>
          var _ := evfd.Read();
          threads := threads[t := Reload(mode)];
        case Reload(mode) =>
          var s := state.Load();
          threads := threads[t := Loop(mode, s)];
        case AcquiredDrain =>
          var _ := evfd.Read();
          threads := threads[t := Holding];
        case Leave(owned) =>
          var _ := state.FetchUpdate((w: LockWord) => w.RemoveWaiter());
          threads := threads[t := if owned then Holding else Idle];
      }
    }

    /** One instruction of the `try_lock` loop or of `unlock`. */
    method TryLockOrUnlock(t: Tid, c: Choice)
      requires t in threads && InTry(threads[t])
      modifies this`threads, state, evfd
      ensures threads == old(threads)[t := ActTry(old(threads[t]), old(Memory()), c).0]
      ensures Memory() == ActTry(old(threads[t]), old(Memory()), c).1
    {
      match threads[t] {
        case TryLoad(caller) =>
          var s := state.Load();
          threads := threads[t := TryLoop(caller, s)];
        case TryCas(caller, s) =>
          var ok, seen := state.CompareExchange(s, s.Locked(), !c.Go?);
          threads := threads[t := if ok then TrySucceeded(caller) else TryLoop(caller, seen)];
        case Holding =>
          if c.Go? {
            var prev := state.FetchUpdate((w: LockWord) => w.Unlocked());
            threads := threads[t := if prev.waiters > 0 then UnlockWrite else Idle];
          }
        case UnlockWrite =>
          evfd.Write();
          threads := threads[t := Idle];
      }
    }

    /** One instruction of an asynchronous acquire operation. */
    method AsyncOperation(t: Tid, c: Choice)
      requires t in threads
      requires !threads[t].Idle? && !InSpin(threads[t]) && !InWait(threads[t]) && !InTry(threads[t])
      modifies this`threads, state, evfd
      ensures threads == old(threads)[t := ActAsync(old(threads[t]), old(Memory()), t in cancelled, c).0]
      ensures Memory() == ActAsync(old(threads[t]), old(Memory()), t in cancelled, c).1
    {
      match threads[t] {
        case AsyncRegister =>
          var prev := state.FetchUpdate((w: LockWord) => w.AddWaiter());
          threads := threads[t := AsyncWait(prev.locked)];
        case AsyncWait(covered) =>
          var readable := evfd.Readable();
          if c.Expire? {
            threads := threads[t := AsyncCheck(covered, true)];
          } else if c.Flake? || (c.Go? && readable) {
            threads := threads[t := AsyncCheck(covered, false)];
          }
        case AsyncCheck(covered, failed) =>
          threads := threads[t := if t in cancelled || failed then AsyncLeave(false) else TryLoad(AsyncReady(covered))];
        case AsyncDrain =>
          var _ := evfd.Read();
          threads := threads[t := AsyncLeave(true)];
        case AsyncLeave(owned) =>
          var _ := state.FetchUpdate((w: LockWord) => w.RemoveWaiter());
          threads := threads[t := AsyncHandler(owned)];
        case AsyncHandler(owned) =>
          threads := threads[t := if owned then Holding else Idle];
      }
    }

    method Execute(e: Event)
      requires Inv(View())
      modifies this, state, evfd
      ensures View() == Step(old(View()), e) && Inv(View())
    {
      StepKeepsInv(View(), e);
      if e.t in threads {
        match e {
          case Cancel(t) => cancelled := cancelled + {t};
          case Do(t, c) => Advance(t, c);
        }
      }
    }

    /** One instruction of any thread, with the history it leaves. */
    method Advance(t: Tid, c: Choice)
      requires t in threads
      modifies this, state, evfd
      ensures View() == Step(old(View()), Do(t, c))
    {
      ghost var s := View();
      var pc := threads[t];
      Instruction(t, c);
      Note(s, t, pc);
    }

    /** Updates the history, and the cancellation flag that a new operation starts with. */
    method Note(ghost s: State, t: Tid, pc: Pc)
      requires t in threads && t in s.threads && pc == s.threads[t]
      requires View() == s.(mem := Memory(), threads := s.threads[t := threads[t]])
      modifies this
      ensures threads == old(threads) && View() == Moved(s, t, threads[t], Memory())
    {
      if pc.AsyncRegister? {
        cancelled := cancelled - {t};
      }
      ghost var begins, takes := !InFlight(pc) && InFlight(threads[t]), pc.TryCas? && Delivering(threads[t]);
      begun, taken := Record(begun, t, begins), Record(taken, t, takes);
      granted, handled := Record(granted, t, pc.AsyncHandler? && pc.owned), Record(handled, t, pc.AsyncHandler?);
    }

    method Instruction(t: Tid, c: Choice)
      requires t in threads
      modifies this`threads, state, evfd
      ensures threads == old(threads)[t := Act(old(threads[t]), old(Memory()), t in cancelled, c).0]
      ensures Memory() == Act(old(threads[t]), old(Memory()), t in cancelled, c).1
    {
      var pc := threads[t];
      if pc.Idle? {
        threads := threads[t := if c.Call? then Enter(c.op) else Idle];
      } else if InSpin(pc) {
        Spinning(t, c);
      } else if InWait(pc) {
        WaitLoop(t, c);
      } else if InTry(pc) {
        TryLockOrUnlock(t, c);
      } else {
        AsyncOperation(t, c);
      }
    }

    /** Any schedule, interleaving the instructions of all threads, keeps the invariant. */
    method Schedule(es: seq<Event>)
      requires Inv(View())
      modifies this, state, evfd
      ensures View() == Run(Step, old(View()), es) && Inv(View())
    {
      for i := 0 to |es|
        invariant Inv(View()) && Run(Step, View(), es[i..]) == Run(Step, old(View()), es)
      {
        assert es[i..][0] == es[i] && es[i..][1..] == es[i + 1..];
        Execute(es[i]);
      }
    }
  }
}
