/** The shared spinlock classes as one object: the atomic word, and the threads that use it. */
module SharedSpinlockObject {
  import opened Atomics
  import opened Options
  import opened Runs
  import opened SharedSpinlock
  import opened ThreadMaps

  class Spinlock {
    const state: Atomic<RwWord>
    var threads: map<Tid, Pc>
    ghost var setter: Option<Tid>
    ghost var writeEntries: nat
    ghost var readEntries: nat

    constructor (users: set<Tid>)
      requires |users| < TWO30
      ensures fresh(state) && View() == Init(users) && Inv(View())
    {
      state := new Atomic(EMPTY);
      threads := map t | t in users :: Idle;
      setter, writeEntries, readEntries := None, 0, 0;
      new;
      ReachableInv(users, []);
    }

    ghost function View(): State
      reads this, state
    {
      State(state.value, threads, setter, writeEntries, readEntries)
    }

    /** One instruction of `lock`, `lock_slow`, `try_lock` or `unlock`. */
    method Exclusive(t: Tid, c: Choice)
      requires t in threads && !Reads(threads[t]) && !threads[t].Idle?
      modifies this`threads, state
      ensures threads == old(threads)[t := ActWriter(old(threads[t]), old(state.value), c).0]
      ensures state.value == ActWriter(old(threads[t]), old(state.value), c).1
    {
      match threads[t] {
        case LockFast =>
          var ok, _ := state.CompareExchange(EMPTY, EMPTY.Written(), false);
          threads := threads[t := if ok then Writer else LockLoad];
        case LockLoad =>
          var expected := state.Load();
          if !expected.locked {
            threads := threads[t := if expected.readers == 0 then LockCas(expected)
                                    else if expected.pending then DrainLoad
                                    else SetPending(expected)];
          }
        case SetPending(expected) =>
          var ok, _ := state.CompareExchange(expected, expected.(pending := true), !c.Go?);
          threads := threads[t := if ok then DrainLoad else LockLoad];
        case DrainLoad =>
          var expected := state.Load();
          if expected.readers == 0 && !expected.locked {
            threads := threads[t := LockCas(expected)];
          }
        case LockCas(expected) =>
          var ok, _ := state.CompareExchange(expected, expected.Written(), !c.Go?);
          threads := threads[t := if ok then Writer else LockLoad];
        case TryLockLoad =>
          var expected := state.Load();
          threads := threads[t := if expected.readers == 0 && !expected.locked then TryLockCas(expected) else Idle];
        case TryLockCas(expected) =>
          var ok, _ := state.CompareExchange(expected, expected.Written(), false);
          threads := threads[t := if ok then Writer else Idle];
        case Writer =>
          if c.Go? {
            var _ := state.FetchUpdate((w: RwWord) => w.Released());
            threads := threads[t := Idle];
          }
      }
    }

    /** One instruction of `lock_shared`, `lock_shared_slow`, `try_lock_shared` or `unlock_shared`. */
    method Shared(t: Tid, c: Choice)
      requires t in threads && Reads(threads[t])
      modifies this`threads, state
      ensures threads == old(threads)[t := ActReader(old(threads[t]), old(state.value), c).0]
      ensures state.value == ActReader(old(threads[t]), old(state.value), c).1
    {
      match threads[t] {
        case SharedLoad(caller) =>
          var expected := state.Load();
          threads := threads[t := if expected.Busy() then Refused(caller) else SharedCas(caller, expected)];
        case SharedCas(caller, expected) =>
          var flaky := c.Flake? && caller.LockSharedSlow?;
          var ok, _ := state.CompareExchange(expected, expected.Incremented(), flaky);
          threads := threads[t := if ok then Reader else Refused(caller)];
        case Reader =>
          if c.Go? {
            var _ := state.FetchUpdate((w: RwWord) => w.Decremented());
            threads := threads[t := Idle];
          }
      }
    }

    method Instruction(t: Tid, c: Choice)
      requires t in threads
      modifies this`threads, state
      ensures threads == old(threads)[t := Act(old(threads[t]), old(state.value), c).0]
      ensures state.value == Act(old(threads[t]), old(state.value), c).1
    {
      var pc := threads[t];
      if pc.Idle? {
        threads := threads[t := if c.Call? then Enter(c.op) else Idle];
      } else if Reads(pc) {
        Shared(t, c);
      } else {
        Exclusive(t, c);
      }
    }

    method Advance(t: Tid, c: Choice)
      requires t in threads
      modifies this, state
      ensures View() == Step(old(View()), Do(t, c))
    {
      var pc := threads[t];
      ghost var before := state.value;
      Instruction(t, c);
      ghost var writes, sharing := Writing(threads[t]) && !Writing(pc), Reading(threads[t]) && !Reading(pc);
      setter := if !before.pending && state.value.pending then Some(t) else setter;
      writeEntries, readEntries := writeEntries + One(writes), readEntries + One(sharing);
    }

    /** Any schedule, interleaving the instructions of all threads, keeps the invariant. */
    method Schedule(es: seq<Event>)
      requires Inv(View())
      modifies this, state
      ensures View() == Run(Step, old(View()), es) && Inv(View())
    {
      for i := 0 to |es|
        invariant Inv(View()) && Run(Step, View(), es[i..]) == Run(Step, old(View()), es)
      {
        assert es[i..][0] == es[i] && es[i..][1..] == es[i + 1..];
        StepKeepsInv(View(), es[i]);
        if es[i].t in threads {
          Advance(es[i].t, es[i].c);
        }
      }
    }
  }
}
