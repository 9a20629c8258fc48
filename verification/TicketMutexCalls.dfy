/** What the callers of the ticket mutex get: `TicketMutex` with the observer of `Calls`. */
module TicketMutexCalls {
  import opened Calls
  import opened Options
  import opened Runs
  import opened ThreadMaps
  import opened TicketMutex
  import opened Words

  function Threads(s: State): map<Tid, Pc> {
    s.threads
  }

  function Actor(e: Event): Tid {
    e.t
  }

  function CallOf(s: State, e: Event): Option<Operation> {
    if e.c.Call? && e.t in s.threads && s.threads[e.t].Idle? then Some(e.c.op) else None
  }

  /** `try_lock` may fail where its compare-exchange finds another ticket, `try_lock_until` where its time is up. */
  predicate Reason(pc: Pc, m: Shared, c: Choice) {
    match pc
    case TryCas(until, cur, _) => !until && m.next != cur
    case TimedLoad => c.Expire?
    case _ => false
  }

  predicate Excuse(s: State, e: Event) {
    e.t in s.threads && Reason(s.threads[e.t], s.mem, e.c)
  }

  function Returns(pc: Pc): Outcome {
    if pc.Critical? then Won else if pc.Idle? then Lost else Inside
  }

  function OutcomeOf(s: State, e: Event): Outcome {
    if e.t in s.threads then Returns(Step(s, e).threads[e.t]) else Inside
  }

  /** Where a call of `op` may be. */
  predicate Serves(op: Operation, pc: Pc) {
    match pc
    case Take => op == Lock
    case Queued(_, _, _) => op == Lock
    case TryLoad(until) => op == if until then TryLockUntil else TryLock
    case TryCas(until, _, _) => op == if until then TryLockUntil else TryLock
    case TimedLoad => op == TryLockUntil
    case TimedWait(_) => op == TryLockUntil
    case TimedParked(_) => op == TryLockUntil
    case _ => false
  }

  predicate Grants(op: Operation, pc: Pc) {
    pc.Critical?
  }

  predicate Outside(pc: Pc) {
    pc.Idle? || pc.Critical? || pc.UnlockStore? || pc.Notify?
  }

  predicate Excused(pc: Pc) {
    false
  }

  predicate Holds(pc: Pc) {
    pc.Critical?
  }

  predicate CanFail(op: Operation) {
    op != Lock
  }

  predicate Gains(op: Operation) {
    true
  }

  function Entries(s: State): int {
    |s.entered|
  }

  function Mutex(): Interface<State, Event, Pc, Operation> {
    Interface(Step, Threads, Actor, CallOf, Excuse, OutcomeOf, Serves, Grants, Outside, Excused, Holds,
              CanFail, Gains, Entries)
  }

  lemma LockServes(op: Operation, backoff: bool, pc: Pc, m: Shared, c: Choice)
    requires Serves(op, pc) && !Tries(pc)
    ensures var pc' := ActLock(backoff, pc, m, c).0;
            Serving(Mutex(), op, pc', Returns(pc'), Reason(pc, m, c), One(pc'.Critical?))
  {
  }

  lemma TryServes(op: Operation, pc: Pc, m: Shared, c: Choice)
    requires Serves(op, pc) && Tries(pc)
    ensures var pc' := ActTry(pc, m, c).0;
            Serving(Mutex(), op, pc', Returns(pc'), Reason(pc, m, c), One(pc'.Critical?))
  {
  }

  lemma ActOutside(backoff: bool, pc: Pc, m: Shared, c: Choice)
    requires Outside(pc) && !pc.Notify?
    ensures var pc' := Act(backoff, pc, m, c).0;
            if pc.Idle? && c.Call? then Serving(Mutex(), c.op, pc', Returns(pc'), false, 0)
            else Resting(Mutex(), pc, pc', 0)
  {
  }

  lemma WokenServes(pc: Pc)
    ensures Alike(Mutex(), pc, Woken(pc))
  {
    assert forall op :: Serves(op, Woken(pc)) == Serves(op, pc);
  }

  lemma NotifyIsOk(s: State, e: Event)
    requires e.t in s.threads && s.threads[e.t].Notify?
    ensures StepOk(Mutex(), s, e)
  {
    forall u | u in s.threads && u != e.t ensures Alike(Mutex(), s.threads[u], Step(s, e).threads[u]) {
      WokenServes(s.threads[u]);
    }
  }

  lemma StepServes(s: State, e: Event)
    ensures StepOk(Mutex(), s, e)
  {
    if e.t in s.threads && s.threads[e.t].Notify? {
      NotifyIsOk(s, e);
    } else if e.t in s.threads {
      var pc := s.threads[e.t];
      var pc' := Act(s.backoff, pc, s.mem, e.c).0;
      forall op | Serves(op, pc)
        ensures Serving(Mutex(), op, pc', Returns(pc'), Excuse(s, e), One(pc'.Critical?))
      {
        if Tries(pc) { TryServes(op, pc, s.mem, e.c); } else { LockServes(op, s.backoff, pc, s.mem, e.c); }
      }
      if Outside(pc) { ActOutside(s.backoff, pc, s.mem, e.c); }
      MovedIsOk(Mutex(), s, e);
    }
  }

  /** In every run, per thread and operation: each call begun has returned once or is under way at one of its own
      places; `lock` never returned without the lock, `try_lock` did only where its compare-exchange found another
      ticket, `try_lock_until` only when its time was up; and the critical section was entered exactly as often as
      a call returned with the lock. */
  lemma CallsReturn(backoff: bool, threads: set<Tid>, es: seq<Event>, t: Tid, op: Operation)
    ensures var x := WatchedRun(Mutex(), Init(backoff, threads), es);
            && x.s == Run(Step, Init(backoff, threads), es)
            && x.calls.begun[(t, op)]
               == x.calls.won[(t, op)] + x.calls.lost[(t, op)] + One(t in x.calls.now && x.calls.now[t] == op)
            && x.calls.lost[(t, Lock)] == 0 && x.calls.unexcused == multiset{}
            && x.calls.gained == |x.s.entered|
            && (t in x.s.threads ==>
                  if t in x.calls.now then Serves(x.calls.now[t], x.s.threads[t]) else Outside(x.s.threads[t]))
  {
    var s0 := Init(backoff, threads);
    forall s, e ensures StepOk(Mutex(), s, e) { StepServes(s, e); }
    AlwaysAnything(Step, s0, es);
    EveryCallIsFair(Mutex(), Anything, AnyState, s0, es);
    FairLedger(Mutex(), WatchedRun(Mutex(), s0, es), t, op);
    FairLedger(Mutex(), WatchedRun(Mutex(), s0, es), t, Lock);
  }

  // ----- each operation, alone

  /** The words agree exactly while no ticket is outstanding. */
  lemma FreeHasNoTickets(s: State)
    requires Inv(s)
    ensures s.mem.next == s.mem.serving <==> s.mem.issued == s.mem.served
  {
    FewOutstanding(s);
    if s.mem.next == s.mem.serving {
      SameLowWord(s.mem.served, s.mem.issued);
    }
  }

  /** Every operation, called while no ticket is outstanding and left alone, enters by two instructions, with the
      next ticket. */
  lemma CallOnFreeMutexEnters(s: State, t: Tid, op: Operation)
    requires t in s.threads && s.threads[t].Idle? && s.mem.next == s.mem.serving && s.mem.issued == s.mem.served
    ensures var s' := Run(Step, Step(s, Do(t, Call(op))), [Do(t, Go), Do(t, Go)]);
            && t in s'.threads && s'.threads[t] == Critical(s.mem.served)
            && s'.mem == s.mem.(next := Add(s.mem.next, 1), issued := s.mem.issued + 1)
  {
    if op == Lock { LockEnters(s, t); } else { TryEnters(s, t, op); }
  }

  lemma LockEnters(s: State, t: Tid)
    requires t in s.threads && s.threads[t].Idle? && s.mem.next == s.mem.serving && s.mem.issued == s.mem.served
    ensures var s' := Run(Step, Step(s, Do(t, Call(Lock))), [Do(t, Go), Do(t, Go)]);
            && t in s'.threads && s'.threads[t] == Critical(s.mem.served)
            && s'.mem == s.mem.(next := Add(s.mem.next, 1), issued := s.mem.issued + 1)
  {
    FewSteps(Step, Step(s, Do(t, Call(Lock))), Do(t, Go));
  }

  lemma TryEnters(s: State, t: Tid, op: Operation)
    requires t in s.threads && s.threads[t].Idle? && s.mem.next == s.mem.serving && op != Lock
    ensures var s' := Run(Step, Step(s, Do(t, Call(op))), [Do(t, Go), Do(t, Go)]);
            && t in s'.threads && s'.threads[t] == Critical(s.mem.issued)
            && s'.mem == s.mem.(next := Add(s.mem.next, 1), issued := s.mem.issued + 1)
  {
    FewSteps(Step, Step(s, Do(t, Call(op))), Do(t, Go));
  }

  /** `try_lock` while a ticket is outstanding returns by two instructions and changes nothing. */
  lemma TryOnHeldMutexFails(s: State, t: Tid)
    requires t in s.threads && s.threads[t].Idle? && s.mem.next != s.mem.serving
    ensures var s' := Run(Step, Step(s, Do(t, Call(TryLock))), [Do(t, Go), Do(t, Go)]);
            t in s'.threads && s'.threads[t].Idle? && s'.mem == s.mem && s'.entered == s.entered
  {
    FewSteps(Step, Step(s, Do(t, Call(TryLock))), Do(t, Go));
  }

  /** A `try_lock` fails only if a ticket was issued beyond those served when it loaded the word: the mutex was
      held then, or has been taken since. */
  lemma TryFailsOnlyIfTaken(s: State, t: Tid)
    requires Inv(s) && t in s.threads && s.threads[t].TryCas? && s.mem.next != s.threads[t].cur
    ensures s.mem.issued > s.threads[t].k0
  {
  }

  /** A `try_lock_until` that finds the serving word changed tries again: on a free mutex it enters, too. */
  lemma TimedTriesAgain(s: State, t: Tid)
    requires t in s.threads && s.threads[t].TimedWait? && s.mem.serving != s.threads[t].cur
    requires s.mem.next == s.mem.serving
    ensures var s' := Run(Step, s, [Do(t, Go), Do(t, Go), Do(t, Go)]);
            t in s'.threads && s'.threads[t] == Critical(s.mem.issued)
  {
    var e, s1 := Do(t, Go), Step(s, Do(t, Go));
    assert s1.threads[t] == TryLoad(true) && s1.mem == s.mem;
    TryGoesIn(s1, t);
    FewSteps(Step, s, e);
    FewSteps(Step, s1, e);
  }

  lemma TryGoesIn(s: State, t: Tid)
    requires t in s.threads && s.threads[t].TryLoad? && s.mem.next == s.mem.serving
    ensures var s' := Run(Step, s, [Do(t, Go), Do(t, Go)]);
            t in s'.threads && s'.threads[t] == Critical(s.mem.issued)
  {
    FewSteps(Step, s, Do(t, Go));
  }

  /** `unlock` serves the next ticket and goes on to wake all sleepers. */
  lemma UnlockServesNext(s: State, t: Tid)
    requires t in s.threads && s.threads[t].Critical?
    ensures var s' := Run(Step, s, [Do(t, Go), Do(t, Go)]);
            && t in s'.threads && s'.threads[t].Notify?
            && s'.mem == s.mem.(serving := Add(s.mem.serving, 1), served := s.mem.served + 1)
  {
    FewSteps(Step, s, Do(t, Go));
  }

  /** A sleeping `try_lock_until` that returns from its wait tries before it looks at its time. */
  lemma WokenTriesAgain(s: State, t: Tid, c: Choice)
    requires t in s.threads && s.threads[t].TimedParked? && (c.Flake? || c.Expire?) && s.mem.next == s.mem.serving
    ensures var s' := Run(Step, Step(s, Do(t, c)), [Do(t, Go), Do(t, Go)]);
            t in s'.threads && s'.threads[t] == Critical(s.mem.issued)
  {
    TryGoesIn(Step(s, Do(t, c)), t);
  }

  /** With a spin phase, a lock goes to its waiting loop only when that is over. */
  lemma SpinsBeforeWaiting(s: State, e: Event)
    requires s.backoff && e.t in s.threads && s.threads[e.t].Queued?
    requires s.threads[e.t].stage.FirstCheck? || s.threads[e.t].stage.SpinCheck?
    ensures var pc := Step(s, e).threads[e.t];
            pc.Queued? && pc.stage.SlowLoad? ==> s.threads[e.t].stage.SpinCheck? && e.c.Expire?
  {
  }

  /** A waiter sleeps exactly if the serving word is still what it loaded; otherwise it looks again. */
  lemma SleepsWhileUnchanged(s: State, t: Tid)
    requires t in s.threads && s.threads[t].Queued? && s.threads[t].stage.Wait?
    ensures var pc, s' := s.threads[t], Step(s, Do(t, Go));
            && t in s'.threads && s'.mem == s.mem
            && s'.threads[t] == pc.(stage := if s.mem.serving == pc.stage.cur then Parked(pc.stage.cur) else SlowLoad)
  {
  }

  lemma TimedSleepsWhileUnchanged(s: State, t: Tid)
    requires t in s.threads && s.threads[t].TimedWait?
    ensures var pc, s' := s.threads[t], Step(s, Do(t, Go));
            && t in s'.threads && s'.mem == s.mem
            && s'.threads[t] == if s.mem.serving == pc.cur then TimedParked(pc.cur) else TryLoad(true)
  {
  }

  /** A waiter done spinning, or not made to spin, looks once more and sleeps. */
  lemma SpinEndsInSleep(s: State, t: Tid)
    requires t in s.threads && s.threads[t].Queued? && s.threads[t].my != s.mem.serving
    requires if s.backoff then s.threads[t].stage.SpinCheck? else s.threads[t].stage.FirstCheck?
    ensures var s1 := Step(s, Do(t, if s.backoff then Expire else Go));
            var s' := Run(Step, s1, [Do(t, Go), Do(t, Go)]);
            t in s'.threads && s'.threads[t] == s.threads[t].(stage := Parked(s.mem.serving)) && s'.mem == s.mem
  {
    FewSteps(Step, Step(s, Do(t, if s.backoff then Expire else Go)), Do(t, Go));
  }
}
