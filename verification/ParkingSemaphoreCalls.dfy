/** What the callers of the parking semaphore get: `ParkingSemaphore` with the observer of `Calls`. */
module ParkingSemaphoreCalls {
  import opened Calls
  import opened Options
  import opened ParkingSemaphore
  import opened Runs
  import opened ThreadMaps
  import opened Words

  function Threads(s: State): map<Tid, Pc> {
    s.threads
  }

  function Actor(e: Event): Tid {
    e.t
  }

  function CallOf(s: State, e: Event): Option<Operation> {
    if e.c.Call? && e.t in s.threads && s.threads[e.t].Idle? then Some(e.c.op) else None
  }

  /** `try_acquire` may fail where it finds no token. */
  predicate Reason(pc: Pc, count: Int32) {
    (pc.TryLoad? || pc.TryCas?) && count <= 0
  }

  predicate Excuse(s: State, e: Event) {
    e.t in s.threads && Reason(s.threads[e.t], s.count)
  }

  /** How a call that was at `pc` returns: a release always, an acquisition with a token taken. */
  function Returns(pc: Pc, done: bool): Outcome {
    if pc.Release? || Notifies(pc) || done then Won else Lost
  }

  function OutcomeOf(s: State, e: Event): Outcome {
    if e.t in s.threads && Step(s, e).threads[e.t].Idle? then
      Returns(s.threads[e.t], Step(s, e).completed > s.completed)
    else Inside
  }

  /** Where a call of `op` may be; a release is about to add what it was asked for. */
  predicate Serves(op: Operation, pc: Pc) {
    match pc
    case Release(n) => op.ReleaseTokens? && n == Wrap(op.n)
    case NotifyOne => op.ReleaseTokens?
    case NotifyAll => op.ReleaseTokens?
    case SpinLoad => op == Acquire
    case Spin(_) => op == Acquire
    case Subtract => op == Acquire
    case Compare => op == Acquire
    case Wait(_) => op == Acquire
    case Parked(_) => op == Acquire
    case TryLoad => op == TryAcquire
    case TryCas(_) => op == TryAcquire
    case Idle => false
  }

  predicate Grants(op: Operation, pc: Pc) {
    pc.Idle?
  }

  predicate Outside(pc: Pc) {
    pc.Idle?
  }

  predicate Excused(pc: Pc) {
    false
  }

  predicate Holds(pc: Pc) {
    false
  }

  predicate CanFail(op: Operation) {
    op == TryAcquire
  }

  predicate Acquires(op: Operation) {
    !op.ReleaseTokens?
  }

  function Completed(s: State): int {
    s.completed
  }

  function Semaphore(): Interface<State, Event, Pc, Operation> {
    Interface(Step, Threads, Actor, CallOf, Excuse, OutcomeOf, Serves, Grants, Outside, Excused, Holds,
              CanFail, Acquires, Completed)
  }

  lemma ActServes(op: Operation, backoff: bool, pc: Pc, count: Int32, c: Choice)
    requires !Notifies(pc) && (Serves(op, pc) || (pc.Idle? && c == Call(op)))
    ensures var f := Act(backoff, pc, count, c);
            Serving(Semaphore(), op, f.pc, if f.pc.Idle? then Returns(pc, f.done) else Inside, Reason(pc, count),
                    One(f.done))
  {
  }

  lemma WokenServes(pc: Pc)
    ensures Alike(Semaphore(), pc, Woken(pc))
  {
    assert forall op :: Serves(op, Woken(pc)) == Serves(op, pc);
  }

  lemma NotifyIsOk(s: State, e: Event)
    requires e.t in s.threads && Notifies(s.threads[e.t])
    ensures StepOk(Semaphore(), s, e)
  {
    var s' := Notified(s, e.t, e.c);
    assert s'.threads.Keys == s.threads.Keys && s'.completed == s.completed;
    forall u | u in s.threads && u != e.t ensures Alike(Semaphore(), s.threads[u], s'.threads[u]) {
      WokenServes(s.threads[u]);
    }
  }

  lemma StepServes(s: State, e: Event)
    ensures StepOk(Semaphore(), s, e)
  {
    if e.t in s.threads && Notifies(s.threads[e.t]) {
      NotifyIsOk(s, e);
    } else if e.t in s.threads {
      var pc, f := s.threads[e.t], Act(s.backoff, s.threads[e.t], s.count, e.c);
      forall op | Serves(op, pc)
        ensures Serving(Semaphore(), op, f.pc, if f.pc.Idle? then Returns(pc, f.done) else Inside, Excuse(s, e),
                        One(f.done))
      {
        ActServes(op, s.backoff, pc, s.count, e.c);
      }
      if pc.Idle? && e.c.Call? { ActServes(e.c.op, s.backoff, pc, s.count, e.c); }
      MovedIsOk(Semaphore(), s, e);
    }
  }

  lemma AllStepsServe()
    ensures forall s, e :: StepOk(Semaphore(), s, e)
  {
    forall s, e ensures StepOk(Semaphore(), s, e) { StepServes(s, e); }
  }

  lemma FairFromStart(s: State, es: seq<Event>)
    requires forall s, e :: StepOk(Semaphore(), s, e)
    requires forall t :: t in s.threads ==> s.threads[t].Idle?
    requires Always(Step, Anything, s, es)
    ensures var x := WatchedRun(Semaphore(), s, es);
            x.s == Run(Step, s, es) && Fair(Semaphore(), x) && x.calls.gained == Completed(x.s) - Completed(s)
  {
    EveryCallIsFair(Semaphore(), Anything, AnyState, s, es);
  }

  /** In every run, per thread and operation: each call begun has returned once or is under way at one of its own
      places; `release` and `acquire` always return with what was asked, `try_acquire` without only where it found
      no token; and the acquisitions completed are the calls that returned with a token. */
  lemma CallsReturn(backoff: bool, initial: nat, threads: set<Tid>, es: seq<Event>, t: Tid, op: Operation)
    requires initial < TWO31
    ensures var x := WatchedRun(Semaphore(), Init(backoff, initial, threads), es);
            && x.s == Run(Step, Init(backoff, initial, threads), es)
            && x.calls.begun[(t, op)]
               == x.calls.won[(t, op)] + x.calls.lost[(t, op)] + One(t in x.calls.now && x.calls.now[t] == op)
            && (!CanFail(op) ==> x.calls.lost[(t, op)] == 0) && x.calls.unexcused == multiset{}
            && x.calls.gained == x.s.completed
            && (t in x.s.threads ==>
                  if t in x.calls.now then Serves(x.calls.now[t], x.s.threads[t]) else x.s.threads[t].Idle?)
  {
    var s0 := Init(backoff, initial, threads);
    AllStepsServe();
    AlwaysAnything(Step, s0, es);
    FairFromStart(s0, es);
    FairLedger(Semaphore(), WatchedRun(Semaphore(), s0, es), t, op);
  }

  // ----- what was released is what was asked for

  /** Tokens that releases under way have yet to add. */
  function Amount(pc: Pc): nat {
    if pc.Release? && pc.n >= 0 then pc.n else 0
  }

  /** The sum of the arguments of the calls of `release` in a run. */
  function Asked(s: State, es: seq<Event>): nat
    decreases |es|
  {
    if es == [] then 0 else AskedBy(CallOf(s, es[0])) + Asked(Step(s, es[0]), es[1..])
  }

  function AskedBy(op: Option<Operation>): nat {
    if op.Some? && op.value.ReleaseTokens? then op.value.n else 0
  }

  lemma StepAsks(s: State, e: Event)
    requires NoOverflow(s, e)
    ensures Step(s, e).released + Sum(Step(s, e).threads, Amount)
            == s.released + Sum(s.threads, Amount) + AskedBy(CallOf(s, e))
  {
    if e.t in s.threads {
      if s.threads[e.t].NotifyAll? {
        SumMapAll(s.threads, Woken, Amount);
        SumUpdate(MapAll(s.threads, Woken), e.t, Idle, Amount);
      } else if s.threads[e.t].NotifyOne? {
        SumUpdate(s.threads, e.t, Idle, Amount);
        if e.c.Wake? && e.c.w in s.threads && s.threads[e.c.w].Parked? {
          SumUpdate(s.threads[e.t := Idle], e.c.w, Woken(s.threads[e.c.w]), Amount);
        }
      } else {
        SumUpdate(s.threads, e.t, Step(s, e).threads[e.t], Amount);
      }
    }
  }

  /** In every run the tokens released are the sum of the arguments of all calls of `release`, less what the calls
      under way have yet to add. */
  lemma {:induction false} ReleasedAsAsked(s: State, es: seq<Event>)
    requires Always(Step, NoOverflow, s, es)
    ensures Run(Step, s, es).released + Sum(Run(Step, s, es).threads, Amount)
            == s.released + Sum(s.threads, Amount) + Asked(s, es)
    decreases |es|
  {
    if es != [] {
      StepAsks(s, es[0]);
      ReleasedAsAsked(Step(s, es[0]), es[1..]);
    }
  }

  // ----- each operation, alone

  /** A release adds its tokens, and then wakes nobody if nobody was blocked, one thread if one token or one
      blocked thread is all there is, and otherwise all. */
  lemma ReleaseAlone(s: State, t: Tid, n: nat)
    requires t in s.threads && s.threads[t].Idle? && n < TWO31 && s.count + n < TWO31
    ensures var s' := Step(Step(s, Do(t, Call(ReleaseTokens(n)))), Do(t, Go));
            && t in s'.threads && s'.count == s.count + n && s'.released == s.released + n
            && s'.threads[t] == if s.count >= 0 then Idle
                                else if n == 1 || (n > 1 && s.count == -1) then NotifyOne else NotifyAll
  {
    assert Wrap(n) == n && Wrap(s.count + n) == s.count + n;
  }

  /** Both acquiring operations, alone with a token there, take it by at most two instructions and return. */
  lemma AcquireWithToken(s: State, t: Tid, op: Operation) returns (es: seq<Event>)
    requires t in s.threads && s.threads[t].Idle? && Acquires(op) && s.count > 0
    ensures |es| <= 2 && forall e :: e in es ==> e == Do(t, Go)
    ensures var s' := Run(Step, Step(s, Do(t, Call(op))), es);
            && t in s'.threads && s'.threads[t].Idle? && s'.count == s.count - 1 && s'.completed == s.completed + 1
  {
    var e, s1 := Do(t, Go), Step(s, Do(t, Call(op)));
    assert s1.count == s.count && s1.completed == s.completed;
    FewSteps(Step, s1, e);
    if op == Acquire && !s.backoff {
      SubtractTakes(s1, t);
      es := [e];
    } else {
      LoadTakes(s1, t);
      es := [e, e];
    }
  }

  lemma SubtractTakes(s: State, t: Tid)
    requires t in s.threads && s.threads[t].Subtract? && s.count > 0
    ensures var s' := Step(s, Do(t, Go));
            t in s'.threads && s'.threads[t].Idle? && s'.count == s.count - 1 && s'.completed == s.completed + 1
  {
    assert Wrap(s.count - 1) == s.count - 1;
  }

  lemma LoadTakes(s: State, t: Tid)
    requires t in s.threads && (s.threads[t].SpinLoad? || s.threads[t].TryLoad?) && s.count > 0
    ensures var s' := Step(Step(s, Do(t, Go)), Do(t, Go));
            t in s'.threads && s'.threads[t].Idle? && s'.count == s.count - 1 && s'.completed == s.completed + 1
  {
    assert Wrap(s.count - 1) == s.count - 1;
  }

  /** Without one, `try_acquire` returns at once and changes nothing. */
  lemma TryAcquireWithoutToken(s: State, t: Tid)
    requires t in s.threads && s.threads[t].Idle? && s.count <= 0
    ensures var s' := Step(Step(s, Do(t, Call(TryAcquire))), Do(t, Go));
            t in s'.threads && s'.threads[t].Idle? && s'.count == s.count && s'.completed == s.completed
  {
  }

  /** An acquire that is past its spin phase counts itself below an empty semaphore, and sleeps. */
  lemma AcquireWithoutToken(s: State, t: Tid)
    requires t in s.threads && s.threads[t].Subtract? && -TWO31 < s.count <= 0
    ensures var s' := Run(Step, s, [Do(t, Go), Do(t, Go), Do(t, Go)]);
            && t in s'.threads && s'.threads[t] == Parked(s.count - 1) && s'.count == s.count - 1
            && s'.completed == s.completed
  {
    FewSteps(Step, s, Do(t, Go));
    assert Wrap(s.count - 1) == s.count - 1;
  }

  /** With a spin phase, an acquire counts itself only when that is over. */
  lemma SpinsBeforeBlocking(s: State, e: Event)
    requires s.backoff && e.t in s.threads && e.t in Step(s, e).threads
    requires Step(s, e).threads[e.t].Subtract? && !s.threads[e.t].Subtract?
    ensures s.threads[e.t].Spin? && s.threads[e.t].c <= 0 && e.c.Expire?
  {
  }

  /** The spin phase ends by counting itself, if it began without a token. */
  lemma SpinEndsInSubtract(s: State, t: Tid)
    requires t in s.threads && s.threads[t].Spin? && s.threads[t].c <= 0
    ensures var s' := Step(s, Do(t, Expire)); t in s'.threads && s'.threads[t].Subtract? && s'.count == s.count
  {
  }
}
