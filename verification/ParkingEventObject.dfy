/** `parking_auto_reset_event` as an object: its signed atomic word, and the threads that use it. */
module ParkingEventObject {
  import opened Atomics
  import opened ParkingEvent
  import opened Runs
  import opened ThreadMaps
  import opened Words

  class AutoResetEvent {
    const backoff: bool
    const state: Atomic<Int32>
    var threads: map<Tid, Pc>
    ghost var initial: nat
    ghost var signalled: nat
    ghost var completed: nat

    constructor (backoff: bool, initiallySet: bool, users: set<Tid>)
      requires |users| < TWO31 - 1
      ensures fresh(state) && View() == Init(backoff, initiallySet, users) && Inv(View())
    {
      this.backoff := backoff;
      state := new Atomic(if initiallySet then 1 else 0);
      threads := map t | t in users :: Idle;
      initial, signalled, completed := One(initiallySet), 0, 0;
      new;
      ReachableInv(backoff, initiallySet, users, []);
    }

    ghost function View(): State
      reads this, state
    {
      State(backoff, state.value, threads, initial, signalled, completed)
    }

    /** One instruction of `signal` or of the `try_wait` loop. */
    method SignalOrTake(t: Tid, c: Choice) returns (done: bool)
      requires t in threads && !threads[t].Idle? && !threads[t].Subtract? && !threads[t].Slot? && !threads[t].Notify?
      modifies this`threads, state
      ensures var f := ActTake(old(threads[t]), old(state.value), c);
              threads == old(threads)[t := f.pc] && state.value == f.value && done == f.done
    {
      done := false;
      match threads[t] {
        case SignalLoad =>
          var s := state.Load();
          threads := threads[t := SignalLoop(s)];
        case SignalCas(s) =>
          var ok, seen := state.CompareExchange(s, Wrap(s + 1), !c.Go?);
          threads := threads[t := if !ok then SignalLoop(seen) else if s < 0 then ParkingEvent.Notify else Idle];
        case TakeLoad(caller) =>
          var s := state.Load();
          threads := threads[t := TakeLoop(caller, s, c)];
        case TakeCas(caller, s) =>
          var ok, seen := state.CompareExchange(s, Wrap(s - 1), !c.Go?);
          threads := threads[t := if ok then Idle else TakeLoop(caller, seen, c)];
          done := ok;
      }
    }

    /** One instruction of `wait` or `try_wait_until` from the subtraction on. */
    method Waiting(t: Tid, c: Choice) returns (done: bool)
      requires t in threads && (threads[t].Subtract? || threads[t].Slot?)
      modifies this`threads, state
      ensures var f := ActWait(old(threads[t]), old(state.value), c);
              threads == old(threads)[t := f.pc] && state.value == f.value && done == f.done
    {
      done := false;
      match threads[t] {
        case Subtract(timed) =>
          var prev := state.FetchUpdate((n: Int32) => Wrap(n - 1));
          var less: int := prev as int - 1;
          done := prev > 0;
          threads := threads[t := if done then Idle else Slot(Compare, timed, Wrap(less))];
        case Slot(stage, timed, slot) =>
          match stage {
            case Compare =>
              var cur := state.Load();
              done := cur > slot;
              threads := threads[t := if done then Idle else Slot(Wait(cur), timed, slot)];
            case Wait(cur) =>
              if c.Expire? && timed {
                threads := threads[t := Slot(ExpiredLoad, timed, slot)];
              } else if c.Go? || c.Flake? {
                var seen := state.Load();
                threads := threads[t := Slot(if c.Go? && seen == cur then Parked(cur) else Compare, timed, slot)];
              }
            case Parked(_) =>
              if c.Expire? && timed {
                threads := threads[t := Slot(ExpiredLoad, timed, slot)];
              } else if c.Flake? {
                threads := threads[t := Slot(Compare, timed, slot)];
              }
            case ExpiredLoad =>
              var cur := state.Load();
              done := cur > slot;
              threads := threads[t := if done then Idle else Slot(Undo, timed, slot)];
            case Undo =>
              var _ := state.FetchUpdate((n: Int32) => Wrap(n + 1));
              threads := threads[t := Idle];
          }
      }
    }

    /** The `atomic_notify_all` of `signal`. */
    method WakeAll(t: Tid, c: Choice)
      requires t in threads && threads[t].Notify?
      modifies this`threads
      ensures View() == Step(old(View()), Do(t, c))
    {
      threads := MapAll(threads, Woken)[t := Idle];
    }

    method Advance(t: Tid, c: Choice)
      requires t in threads
      modifies this, state
      ensures View() == Step(old(View()), Do(t, c))
    {
      var pc := threads[t];
      if pc.Notify? {
        WakeAll(t, c);
      } else {
        ghost var before := state.value;
        var done := false;
        if pc.Idle? {
          threads := threads[t := if c.Call? then Enter(backoff, c.op) else Idle];
        } else if pc.Subtract? || pc.Slot? {
          done := Waiting(t, c);
        } else {
          done := SignalOrTake(t, c);
        }
        signalled := signalled + One(pc.SignalCas? && state.value != before);
        completed := completed + One(done);
      }
    }

    /** Any schedule whose timeouts are harmless keeps the invariant. */
    method Schedule(es: seq<Event>)
      requires Inv(View()) && Always(Step, Harmless, View(), es)
      modifies this, state
      ensures View() == Run(Step, old(View()), es) && Inv(View())
    {
      for i := 0 to |es|
        invariant Inv(View()) && Always(Step, Harmless, View(), es[i..])
        invariant Run(Step, View(), es[i..]) == Run(Step, old(View()), es)
      {
        assert es[i..][0] == es[i] && es[i..][1..] == es[i + 1..];
        StepKeepsInv(View(), es[i]);
        if es[i].t in threads {
          Advance(es[i].t, es[i].c);
        }
      }
    }
  }
}
