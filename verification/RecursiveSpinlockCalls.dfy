/** What the callers of the recursive spinlock get: `RecursiveSpinlock` with the observer of `Calls`. */
module RecursiveSpinlockCalls {
  import opened Calls
  import opened Options
  import opened RecursiveSpinlock
  import opened Runs
  import opened ThreadMaps

  function Threads(s: State): map<Tid, Pc> {
    s.threads
  }

  function Actor(e: Event): Tid {
    e.t
  }

  /** A thread that holds no lock does not call `unlock`. */
  predicate Offered(op: Operation, depth: nat) {
    op == Unlock ==> depth > 0
  }

  function CallOf(s: State, e: Event): Option<Operation> {
    if e.c.Call? && e.t in s.threads && e.t in s.depth && s.threads[e.t].Idle? && Offered(e.c.op, s.depth[e.t])
    then Some(e.c.op) else None
  }

  /** `try_lock` may fail where another thread is the owner. */
  predicate Excuse(s: State, e: Event) {
    && e.t in s.threads && s.threads[e.t].OwnerCas?
    && s.mem.owner.Some? && s.mem.owner.value != e.t
  }

  /** How a call that was at `pc` returns: with its write of the count, or without. */
  function Returns(pc: Pc): Outcome {
    if pc.SetOne? || pc.IncrementWrite? || pc.DecrementWrite? || pc.ClearOwner? then Won else Lost
  }

  function OutcomeOf(s: State, e: Event): Outcome {
    if e.t in s.threads && e.t in s.depth && Step(s, e).threads[e.t].Idle? then Returns(s.threads[e.t]) else Inside
  }

  /** Where a call of `op` may be. */
  predicate Serves(op: Operation, pc: Pc) {
    match pc
    case OwnerCas(blocking) => op == if blocking then Lock else TryLock
    case SlowLoad => op == Lock
    case SlowCas => op == Lock
    case SetOne => op != Unlock
    case IncrementRead => op != Unlock
    case IncrementWrite(_) => op != Unlock
    case DecrementRead => op == Unlock
    case DecrementWrite(_) => op == Unlock
    case ClearOwner => op == Unlock
    case Idle => false
  }

  predicate Grants(op: Operation, pc: Pc) {
    pc.Idle?
  }

  predicate Outside(pc: Pc) {
    pc.Idle?
  }

  predicate Excused(pc: Pc) {
    false
  }

  predicate Holds(pc: Pc) {
    false
  }

  predicate CanFail(op: Operation) {
    op == TryLock
  }

  predicate Gains(op: Operation) {
    false
  }

  function Gained(s: State): int {
    0
  }

  function Spinlock(): Interface<State, Event, Pc, Operation> {
    Interface(Step, Threads, Actor, CallOf, Excuse, OutcomeOf, Serves, Grants, Outside, Excused, Holds,
              CanFail, Gains, Gained)
  }

  lemma ActServes(op: Operation, t: Tid, pc: Pc, m: Shared, depth: nat, c: Choice)
    requires Serves(op, pc) || (pc.Idle? && c == Call(op) && Offered(op, depth))
    ensures var pc' := Act(t, pc, m, depth, c).pc;
            Serving(Spinlock(), op, pc', if pc'.Idle? then Returns(pc) else Inside,
                    pc.OwnerCas? && m.owner.Some? && m.owner.value != t, 0)
  {
  }

  lemma StepServes(s: State, e: Event)
    requires s.threads.Keys == s.depth.Keys
    ensures StepOk(Spinlock(), s, e)
  {
    if e.t in s.threads {
      var pc, pc' := s.threads[e.t], Step(s, e).threads[e.t];
      forall op | Serves(op, pc)
        ensures Serving(Spinlock(), op, pc', if pc'.Idle? then Returns(pc) else Inside, Excuse(s, e), 0)
      {
        ActServes(op, e.t, pc, s.mem, s.depth[e.t], e.c);
      }
      if CallOf(s, e).Some? { ActServes(e.c.op, e.t, pc, s.mem, s.depth[e.t], e.c); }
      MovedIsOk(Spinlock(), s, e);
    }
  }

  lemma AllStepsServe()
    ensures forall s, e :: Inv(s) ==> Inv(Step(s, e)) && StepOk(Spinlock(), s, e)
  {
    forall s, e | Inv(s) ensures Inv(Step(s, e)) && StepOk(Spinlock(), s, e) {
      StepKeepsInv(s, e);
      StepServes(s, e);
    }
  }

  lemma FairFromStart(s: State, es: seq<Event>)
    requires forall s, e :: Inv(s) ==> Inv(Step(s, e)) && StepOk(Spinlock(), s, e)
    requires Inv(s) && forall t :: t in s.threads ==> s.threads[t].Idle?
    requires Always(Step, Anything, s, es)
    ensures var x := WatchedRun(Spinlock(), s, es); x.s == Run(Step, s, es) && Fair(Spinlock(), x)
  {
    EveryCallIsFair(Spinlock(), Anything, Inv, s, es);
  }

  /** In every run, per thread and operation: each call begun has returned once or is under way at one of its own
      places; `lock` and `unlock` always return, if they do, from their write of the count, and `try_lock` without
      it only where another thread was the owner. */
  lemma CallsReturn(threads: set<Tid>, es: seq<Event>, t: Tid, op: Operation)
    ensures var x := WatchedRun(Spinlock(), Init(threads), es);
            && x.s == Run(Step, Init(threads), es)
            && x.calls.begun[(t, op)]
               == x.calls.won[(t, op)] + x.calls.lost[(t, op)] + One(t in x.calls.now && x.calls.now[t] == op)
            && (!CanFail(op) ==> x.calls.lost[(t, op)] == 0) && x.calls.unexcused == multiset{}
            && (t in x.s.threads ==>
                  if t in x.calls.now then Serves(x.calls.now[t], x.s.threads[t]) else x.s.threads[t].Idle?)
  {
    ReachableInv(threads, []);
    AllStepsServe();
    AlwaysAnything(Step, Init(threads), es);
    FairFromStart(Init(threads), es);
    FairLedger(Spinlock(), WatchedRun(Spinlock(), Init(threads), es), t, op);
  }

  /** A call that returns from its write of the count does so as the owner, one deeper if it locked and one less
      deep if it unlocked, and no longer as the owner exactly after the outermost unlock. */
  lemma ReturnsAsOwner(s: State, e: Event)
    requires Inv(s) && e.t in s.threads && OutcomeOf(s, e).Won?
    ensures var s' := Step(s, e);
            && e.t in s'.depth
            && (s.threads[e.t].SetOne? || s.threads[e.t].IncrementWrite? ==>
                  s'.mem.owner == Some(e.t) && s'.depth[e.t] == s.depth[e.t] + 1 && s'.mem.count == s'.depth[e.t])
            && (s.threads[e.t].DecrementWrite? ==>
                  s'.mem.owner == Some(e.t) && s'.depth[e.t] == s.depth[e.t] - 1 > 0 && s'.mem.count == s'.depth[e.t])
            && (s.threads[e.t].ClearOwner? ==> s'.mem.owner.None? && s'.depth[e.t] == 0 && s'.mem.count == 0)
  {
  }

  // ----- each operation, alone

  /** On a free lock `lock` and `try_lock` make the thread the owner at depth one by two instructions. */
  lemma FreeLockIsTaken(s: State, t: Tid, op: Operation)
    requires t in s.threads && t in s.depth && s.threads[t].Idle? && op != Unlock && s.mem.owner.None?
    ensures var s' := Run(Step, Step(s, Do(t, Call(op))), [Do(t, Go), Do(t, Go)]);
            && t in s'.threads && s'.threads[t].Idle? && s'.mem == Shared(Some(t), 1)
            && t in s'.depth && s'.depth[t] == s.depth[t] + 1
  {
    FewSteps(Step, Step(s, Do(t, Call(op))), Do(t, Go));
  }

  /** The owner locks again by three. */
  lemma OwnerLocksAgain(s: State, t: Tid, op: Operation)
    requires t in s.threads && t in s.depth && s.threads[t].Idle? && op != Unlock && s.mem.owner == Some(t)
    ensures var s' := Run(Step, Step(s, Do(t, Call(op))), [Do(t, Go), Do(t, Go), Do(t, Go)]);
            && t in s'.threads && s'.threads[t].Idle? && s'.mem == s.mem.(count := s.mem.count + 1)
            && t in s'.depth && s'.depth[t] == s.depth[t] + 1
  {
    FewSteps(Step, Step(s, Do(t, Call(op))), Do(t, Go));
  }

  /** While another thread is the owner `try_lock` returns at once, and `lock` waits in its slow path. */
  lemma OtherOwnerRefuses(s: State, t: Tid, op: Operation)
    requires t in s.threads && t in s.depth && s.threads[t].Idle? && op != Unlock
    requires s.mem.owner.Some? && s.mem.owner.value != t
    ensures var s' := Step(Step(s, Do(t, Call(op))), Do(t, Go));
            && t in s'.threads && s'.threads[t] == (if op == TryLock then Idle else SlowLoad)
            && s'.mem == s.mem && s'.depth == s.depth
  {
    assert s.depth[t := s.depth[t]] == s.depth;
  }

  /** From there it becomes the owner by three instructions once the lock is free. */
  lemma WaiterTakesFreedLock(s: State, t: Tid)
    requires t in s.threads && t in s.depth && s.threads[t].SlowLoad? && s.mem.owner.None?
    ensures var s' := Run(Step, s, [Do(t, Go), Do(t, Go), Do(t, Go)]);
            && t in s'.threads && s'.threads[t].Idle? && s'.mem == Shared(Some(t), 1)
            && t in s'.depth && s'.depth[t] == s.depth[t] + 1
  {
    FewSteps(Step, s, Do(t, Go));
  }

  /** `unlock` takes one off the count, and clears the owner exactly if that leaves none. */
  lemma UnlockReleasesOnce(s: State, t: Tid) returns (es: seq<Event>)
    requires Inv(s) && t in s.threads && s.threads[t].Idle? && s.depth[t] > 0
    ensures |es| <= 3 && forall e :: e in es ==> e == Do(t, Go)
    ensures var s' := Run(Step, Step(s, Do(t, Call(Unlock))), es);
            && t in s'.threads && s'.threads[t].Idle? && t in s'.depth && s'.depth[t] == s.depth[t] - 1
            && s'.mem == Shared(if s.depth[t] == 1 then None else Some(t), s.mem.count - 1)
  {
    var e, s1 := Do(t, Go), Step(s, Do(t, Call(Unlock)));
    FewSteps(Step, s1, e);
    es := if s.depth[t] == 1 then [e, e, e] else [e, e];
  }
}
