/** The Apple `native_auto_reset_event` as an object: two atomic counters and a kernel event. */
module NativeEventObject {
  import opened Atomics
  import opened NativeEvent
  import opened Runs
  import opened ThreadMaps
  import opened Words

  class AutoResetEvent {
    const tokenCount: Atomic<Int32>
    const waitCount: Atomic<Word>
    const queue: UserEvent
    var threads: map<Tid, Pc>
    ghost var initial: nat
    ghost var created: nat
    ghost var consumed: nat

    constructor (initiallySet: bool, users: set<Tid>)
      requires |users| < TWO32
      ensures fresh(tokenCount) && fresh(waitCount) && fresh(queue)
      ensures View() == Init(initiallySet, users) && Inv(View())
    {
      tokenCount := new Atomic(if initiallySet then 1 else 0);
      waitCount := new Atomic(0);
      queue := new UserEvent(initiallySet);
      threads := map t | t in users :: Idle;
      initial, created, consumed := One(initiallySet), 0, 0;
      new;
      ReachableInv(initiallySet, users, []);
    }

    ghost function Memory(): Shared
      reads tokenCount, waitCount, queue
    {
      Shared(tokenCount.value, waitCount.value, queue.pending)
    }

    ghost function View(): State
      reads this, tokenCount, waitCount, queue
    {
      State(Memory(), threads, initial, created, consumed)
    }

    /** One instruction of `signal`, or a trigger of the chained wake-up. */
    method Signalling(t: Tid)
      requires t in threads && Signals(threads[t])
      modifies this`threads, tokenCount, queue
      ensures threads == old(threads)[t := ActSignal(old(threads[t]), old(Memory())).0]
      ensures Memory() == ActSignal(old(threads[t]), old(Memory())).1
    {
      match threads[t] {
        case SignalLoad =>
          var waiters := waitCount.Load();
          threads := threads[t := if waiters == 0 then SignalCas else SignalAdd];
        case SignalCas =>
          var ok, _ := tokenCount.CompareExchange(0, 1, false);
          threads := threads[t := if ok then NativeEvent.Trigger(false) else Idle];
        case SignalAdd =>
          var old_ := tokenCount.FetchUpdate((n: Int32) => Wrap(n + 1));
          threads := threads[t := if old_ == 0 then NativeEvent.Trigger(false) else Idle];
        case Trigger(chain) =>
          queue.Trigger();
          threads := threads[t := if chain then SubWaiter(true) else Idle];
      }
    }

    /** One instruction of `try_wait`, `wait` or `try_wait_for`. */
    method Waiting(t: Tid, c: Choice)
      requires t in threads && !Signals(threads[t]) && !threads[t].Idle?
      modifies this`threads, tokenCount, waitCount, queue
      ensures threads == old(threads)[t := ActWait(old(threads[t]), old(Memory()), c).0]
      ensures Memory() == ActWait(old(threads[t]), old(Memory()), c).1
    {
      match threads[t] {
        case TakeLoad(phase) =>
          var s := tokenCount.Load();
          threads := threads[t := TakeLoop(phase, s)];
        case TakeCas(phase, s) =>
          var ok, seen := tokenCount.CompareExchange(s, Wrap(s - 1), !c.Go?);
          threads := threads[t := if ok then Took(phase) else TakeLoop(phase, seen)];
        case AddWaiter(timed) =>
          var _ := waitCount.FetchUpdate((n: Word) => Add(n, 1));
          threads := threads[t := TakeLoad(First(timed))];
        case Kevent(timed) =>
          if c.Go? {
            var received := queue.Receive();
            threads := threads[t := if received then TakeLoad(After(timed)) else Kevent(timed)];
          } else if c.Flake? && !timed {
            threads := threads[t := TakeLoad(After(timed))];
          } else if c.Expire? && timed {
            threads := threads[t := SubWaiter(false)];
          }
        case ChainTokens =>
          var tokens := tokenCount.Load();
          threads := threads[t := if tokens > 0 then ChainWaiters else SubWaiter(true)];
        case ChainWaiters =>
          var waiters := waitCount.Load();
          threads := threads[t := if waiters > 1 then NativeEvent.Trigger(true) else SubWaiter(true)];
        case SubWaiter(_) =>
          var _ := waitCount.FetchUpdate((n: Word) => Sub(n, 1));
          threads := threads[t := Idle];
      }
    }

    method Instruction(t: Tid, c: Choice)
      requires t in threads
      modifies this`threads, tokenCount, waitCount, queue
      ensures threads == old(threads)[t := Act(old(threads[t]), old(Memory()), c).0]
      ensures Memory() == Act(old(threads[t]), old(Memory()), c).1
    {
      var pc := threads[t];
      if pc.Idle? {
        threads := threads[t := if c.Call? then Enter(c.op) else Idle];
      } else if Signals(pc) {
        Signalling(t);
      } else {
        Waiting(t, c);
      }
    }

    method Advance(t: Tid, c: Choice)
      requires t in threads
      modifies this, tokenCount, waitCount, queue
      ensures View() == Step(old(View()), Do(t, c))
    {
      var pc := threads[t];
      ghost var before := tokenCount.value;
      Instruction(t, c);
      ghost var creates := pc.SignalAdd? || (pc.SignalCas? && threads[t].Trigger?);
      created := created + One(creates);
      consumed := consumed + One(pc.TakeCas? && tokenCount.value != before);
    }

    /** Any schedule that does not overflow the token counter keeps the invariant. */
    method Schedule(es: seq<Event>)
      requires Inv(View()) && Always(Step, NoOverflow, View(), es)
      modifies this, tokenCount, waitCount, queue
      ensures View() == Run(Step, old(View()), es) && Inv(View())
    {
      for i := 0 to |es|
        invariant Inv(View()) && Always(Step, NoOverflow, View(), es[i..])
        invariant Run(Step, View(), es[i..]) == Run(Step, old(View()), es)
      {
        assert es[i..][0] == es[i] && es[i..][1..] == es[i + 1..];
        StepKeepsInv(View(), es[i]);
        if es[i].t in threads {
          Advance(es[i].t, es[i].c);
        }
      }
    }
  }
}
