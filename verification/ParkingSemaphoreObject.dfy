/** `parking_semaphore` as an object: its signed atomic word, and the threads that use it. */
module ParkingSemaphoreObject {
  import opened Atomics
  import opened ParkingSemaphore
  import opened Runs
  import opened ThreadMaps
  import opened Words

  class Semaphore {
    const backoff: bool
    const count: Atomic<Int32>
    var threads: map<Tid, Pc>
    ghost var initial: nat
    ghost var released: nat
    ghost var completed: nat

    constructor (backoff: bool, initial: nat, users: set<Tid>)
      requires initial < TWO31 && |users| < TWO31
      ensures fresh(count) && View() == Init(backoff, initial, users) && Inv(View())
    {
      this.backoff := backoff;
      count := new Atomic(initial as Int32);
      threads := map t | t in users :: Idle;
      this.initial, released, completed := initial, 0, 0;
      new;
      ReachableInv(backoff, initial, users, []);
    }

    ghost function View(): State
      reads this, count
    {
      State(backoff, count.value, threads, initial, released, completed)
    }

    /** One instruction of `release`, `acquire` or `try_acquire`. */
    method Instruction(t: Tid, c: Choice) returns (done: bool)
      requires t in threads && !Notifies(threads[t])
      modifies this`threads, count
      ensures var f := Act(backoff, old(threads[t]), old(count.value), c);
              threads == old(threads)[t := f.pc] && count.value == f.count && done == f.done
    {
      done := false;
      match threads[t] {
        case Idle =>
          threads := threads[t := if c.Call? then Enter(backoff, c.op) else Idle];
        case Release(n) =>
          var prev := count.FetchUpdate((x: Int32) => Wrap(x + n));
          threads := threads[t := AfterRelease(prev, n)];
        case SpinLoad =>
          var x := count.Load();
          threads := threads[t := Spin(x)];
        case Spin(x) =>
          if x > 0 {
            var ok, seen := count.CompareExchange(x, Wrap(x - 1), !c.Go?);
            threads := threads[t := if ok then Idle else Spin(seen)];
            done := ok;
          } else {
            threads := threads[t := if c.Expire? then Subtract else Spin(x)];
          }
        case Subtract =>
          var prev := count.FetchUpdate((x: Int32) => Wrap(x - 1));
          threads := threads[t := if prev > 0 then Idle else Compare];
          done := prev > 0;
        case Compare =>
          var x := count.Load();
          threads := threads[t := if x >= 0 then Idle else Wait(x)];
          done := x >= 0;
        case Wait(x) =>
          if c.Go? || c.Flake? {
            var seen := count.Load();
            threads := threads[t := if c.Go? && seen == x then Parked(x) else Compare];
          }
        case Parked(x) =>
          if c.Flake? {
            threads := threads[t := Compare];
          }
        case TryLoad =>
          var x := count.Load();
          threads := threads[t := TryLoop(x)];
        case TryCas(x) =>
          var ok, seen := count.CompareExchange(x, Wrap(x - 1), false);
          threads := threads[t := if ok then Idle else TryLoop(seen)];
          done := ok;
      }
    }

    /** The futex wake of `release`. */
    method WakeSleepers(t: Tid, c: Choice)
      requires t in threads && Notifies(threads[t])
      modifies this`threads
      ensures View() == Notified(old(View()), t, c)
    {
      if threads[t].NotifyAll? {
        threads := MapAll(threads, Woken)[t := Idle];
      } else if c.Wake? && c.w in threads && threads[c.w].Parked? {
        threads := threads[t := Idle][c.w := Woken(threads[c.w])];
      } else if Where(threads, Asleep) == {} {
        threads := threads[t := Idle];
      }
    }

    method Advance(t: Tid, c: Choice)
      requires t in threads
      modifies this, count
      ensures View() == Step(old(View()), Do(t, c))
    {
      var pc := threads[t];
      if Notifies(pc) {
        WakeSleepers(t, c);
      } else {
        var done := Instruction(t, c);
        released := released + if pc.Release? && pc.n >= 0 then pc.n else 0;
        completed := completed + One(done);
      }
    }

    /** Any schedule that does not overflow the word keeps the invariant. */
    method Schedule(es: seq<Event>)
      requires Inv(View()) && Always(Step, NoOverflow, View(), es)
      modifies this, count
      ensures View() == Run(Step, old(View()), es) && Inv(View())
    {
      for i := 0 to |es|
        invariant Inv(View()) && Always(Step, NoOverflow, View(), es[i..])
        invariant Run(Step, View(), es[i..]) == Run(Step, old(View()), es)
      {
        assert es[i..][0] == es[i] && es[i..][1..] == es[i + 1..];
        StepKeepsInv(View(), es[i]);
        if es[i].t in threads {
          Advance(es[i].t, es[i].c);
        }
      }
    }
  }
}
