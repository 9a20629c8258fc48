/** The recursive spinlock class as an object: the atomic owner, the plain count, and the threads that use it. */
module RecursiveSpinlockObject {
  import opened Atomics
  import opened Options
  import opened RecursiveSpinlock
  import opened Runs
  import opened ThreadMaps

  class Spinlock {
    const owner: Atomic<Option<Tid>>
    var recursionCount: nat
    var threads: map<Tid, Pc>
    var depth: map<Tid, nat>   // history; also decides when a thread may unlock

    constructor (users: set<Tid>)
      ensures fresh(owner) && View() == Init(users) && Inv(View())
    {
      owner := new Atomic(None);
      recursionCount := 0;
      threads := map t | t in users :: Idle;
      depth := map t | t in users :: 0;
    }

    ghost function View(): State
      reads this, owner
    {
      State(Shared(owner.value, recursionCount), threads, depth)
    }

    /** One instruction that takes the owner: `lock`, `try_lock` and `lock_slow`. */
    method Acquiring(t: Tid, c: Choice)
      requires t in threads && (threads[t].OwnerCas? || threads[t].SlowLoad? || threads[t].SlowCas?)
      modifies this`threads, owner
      ensures forall d :: var f := Act(t, old(threads[t]), Shared(old(owner.value), recursionCount), d, c);
                          threads == old(threads)[t := f.pc] && owner.value == f.mem.owner
                          && f.mem.count == recursionCount && f.depth == d
    {
      match threads[t] {
        case OwnerCas(blocking) =>
          var ok, seen := owner.CompareExchange(None, Some(t), false);
          threads := threads[t := if ok then SetOne
                                  else if seen == Some(t) then IncrementRead
                                  else if blocking then SlowLoad
                                  else Idle];
        case SlowLoad =>
          var seen := owner.Load();
          threads := threads[t := if seen.None? then SlowCas else SlowLoad];
        case SlowCas =>
          var ok, _ := owner.CompareExchange(None, Some(t), !c.Go?);
          threads := threads[t := if ok then SetOne else SlowLoad];
      }
    }

    /** One instruction of one thread. */
    method Advance(t: Tid, c: Choice)
      requires t in threads && t in depth
      modifies this, owner
      ensures View() == Step(old(View()), Do(t, c))
    {
      ghost var was := View();
      var locked := depth[t];
      match threads[t] {
        case Idle =>
          threads := threads[t := if c.Call? then Enter(c.op, locked) else Idle];
        case SetOne =>
          recursionCount := 1;
          threads, depth := threads[t := Idle], depth[t := locked + 1];
        case IncrementRead =>
          threads := threads[t := IncrementWrite(recursionCount)];
        case IncrementWrite(v) =>
          recursionCount := v + 1;
          threads, depth := threads[t := Idle], depth[t := locked + 1];
        case DecrementRead =>
          threads := threads[t := DecrementWrite(recursionCount)];
        case DecrementWrite(v) =>
          recursionCount := if v > 0 then v - 1 else 0;
          threads := threads[t := if recursionCount == 0 then ClearOwner else Idle];
          depth := depth[t := if locked > 0 then locked - 1 else 0];
        case ClearOwner =>
          owner.Store(None);
          threads := threads[t := Idle];
        case _ =>
          Acquiring(t, c);
      }
      assert depth == was.depth[t := depth[t]];
    }

    /** Any schedule, interleaving the instructions of all threads, keeps the invariant. */
    method Schedule(es: seq<Event>)
      requires Inv(View())
      modifies this, owner
      ensures View() == Run(Step, old(View()), es) && Inv(View())
    {
      for i := 0 to |es|
        invariant Inv(View()) && Run(Step, View(), es[i..]) == Run(Step, old(View()), es)
      {
        assert es[i..][0] == es[i] && es[i..][1..] == es[i + 1..];
        StepKeepsInv(View(), es[i]);
        if es[i].t in threads {
          Advance(es[i].t, es[i].c);
        }
      }
    }
  }
}
