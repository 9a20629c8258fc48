/** `ticket_mutex` as an object: its two atomic counters, and the threads that use it. */
module TicketMutexObject {
  import opened Atomics
  import opened Runs
  import opened ThreadMaps
  import opened TicketMutex
  import opened Words

  class Mutex {
    const backoff: bool
    const servingTicket: Atomic<Word>
    const nextTicket: Atomic<Word>
    var threads: map<Tid, Pc>
    // history: the counters without wrap-around, and the tickets that entered
    var issued: nat
    var served: nat
    ghost var entered: seq<nat>

    constructor (backoff: bool, users: set<Tid>)
      requires |users| < TWO32
      ensures fresh(servingTicket) && fresh(nextTicket)
      ensures Valid() && View() == Init(backoff, users) && Inv(View())
    {
      this.backoff := backoff;
      servingTicket := new Atomic(0);
      nextTicket := new Atomic(0);
      threads := map t | t in users :: Idle;
      issued, served, entered := 0, 0, [];
      new;
      ReachableInv(backoff, users, []);
    }

    ghost predicate Valid() {
      servingTicket != nextTicket
    }

    ghost function Memory(): Shared
      reads this, servingTicket, nextTicket
    {
      Shared(nextTicket.value, servingTicket.value, issued, served)
    }

    ghost function View(): State
      reads this, servingTicket, nextTicket
    {
      State(backoff, Memory(), threads, entered)
    }

    /** One instruction of `lock`, of its slow path or of `unlock`. */
    method LockOrUnlock(t: Tid, c: Choice)
      requires Valid() && t in threads && !Tries(threads[t]) && !threads[t].Idle? && !threads[t].Notify?
      modifies this`threads, this`issued, this`served, servingTicket, nextTicket
      ensures threads == old(threads)[t := ActLock(backoff, old(threads[t]), old(Memory()), c).0]
      ensures Memory() == ActLock(backoff, old(threads[t]), old(Memory()), c).1
    {
      match threads[t] {
        case Take =>
          var my := nextTicket.FetchUpdate((n: Word) => Add(n, 1));
          threads := threads[t := Queued(FirstCheck, my, issued)];
          issued := issued + 1;
        case Queued(stage, my, k) =>
          var serving := servingTicket.Load();
          threads := threads[t := if Compares(stage) && serving == my then Critical(k)
                                  else Queued(NextStage(backoff, stage, my, serving, c), my, k)];
        case Critical(k) =>
          if c.Go? {
            var serving := servingTicket.Load();
            threads := threads[t := UnlockStore(k, Add(serving, 1))];
          }
        case UnlockStore(k, v) =>
          servingTicket.Store(v);
          served := served + 1;
          threads := threads[t := TicketMutex.Notify];
      }
    }

    /** One instruction of `try_lock` or `try_lock_until`. */
    method TryLocking(t: Tid, c: Choice)
      requires Valid() && t in threads && Tries(threads[t])
      modifies this`threads, this`issued, nextTicket
      ensures threads == old(threads)[t := ActTry(old(threads[t]), old(Memory()), c).0]
      ensures Memory() == ActTry(old(threads[t]), old(Memory()), c).1
    {
      match threads[t] {
        case TryLoad(until) =>
          var serving := servingTicket.Load();
          threads := threads[t := TryCas(until, serving, served)];
        case TryCas(until, cur, _) =>
          var ok, _ := nextTicket.CompareExchange(cur, Add(cur, 1), false);
          if ok {
            threads := threads[t := Critical(issued)];
            issued := issued + 1;
          } else {
            threads := threads[t := if until then TimedLoad else Idle];
          }
        case TimedLoad =>
          var serving := servingTicket.Load();
          threads := threads[t := if c.Expire? then Idle else TimedWait(serving)];
        case TimedWait(cur) =>
          if !c.Call? {
            var serving := servingTicket.Load();
            threads := threads[t := if c.Go? && serving == cur then TimedParked(cur) else TryLoad(true)];
          }
        case TimedParked(_) =>
          if c.Flake? || c.Expire? {
            threads := threads[t := TryLoad(true)];
          }
      }
    }

    /** The `atomic_notify_all` of `unlock`. */
    method WakeAll(t: Tid, c: Choice)
      requires t in threads && threads[t].Notify?
      modifies this`threads
      ensures View() == Step(old(View()), Do(t, c))
    {
      threads := MapAll(threads, Woken)[t := Idle];
    }

    method Advance(t: Tid, c: Choice)
      requires Valid() && t in threads
      modifies this, servingTicket, nextTicket
      ensures View() == Step(old(View()), Do(t, c))
    {
      var pc := threads[t];
      if pc.Notify? {
        WakeAll(t, c);
      } else {
        if pc.Idle? {
          threads := threads[t := if c.Call? then Enter(c.op) else Idle];
        } else if Tries(pc) {
          TryLocking(t, c);
        } else {
          LockOrUnlock(t, c);
        }
        ghost var enters := threads[t].Critical? && !pc.Critical?;
        entered := if enters then entered + [threads[t].k] else entered;
      }
    }

    /** Any schedule without an aliased `try_lock` keeps the invariant. */
    method Schedule(es: seq<Event>)
      requires Valid() && Inv(View()) && Always(Step, NoAlias, View(), es)
      modifies this, servingTicket, nextTicket
      ensures View() == Run(Step, old(View()), es) && Inv(View())
    {
      for i := 0 to |es|
        invariant Inv(View()) && Always(Step, NoAlias, View(), es[i..])
        invariant Run(Step, View(), es[i..]) == Run(Step, old(View()), es)
      {
        assert es[i..][0] == es[i] && es[i..][1..] == es[i + 1..];
        StepKeepsInv(View(), es[i]);
        if es[i].t in threads {
          Advance(es[i].t, es[i].c);
        }
      }
    }
  }
}
