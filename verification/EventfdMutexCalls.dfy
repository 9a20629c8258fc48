/** What the callers of the fast eventfd mutex get: `EventfdMutex` with the observer of `Calls`. */
module EventfdMutexCalls {
  import opened Atomics
  import opened Calls
  import opened EventfdMutex
  import opened LockWords
  import opened Options
  import opened Runs
  import opened ThreadMaps
  import opened Words

  function Threads(s: State): map<Tid, Pc> {
    s.threads
  }

  function Actor(e: Event): Tid {
    e.t
  }

  function CallOf(s: State, e: Event): Option<Operation> {
    if e.Do? && e.c.Call? && e.t in s.threads && s.threads[e.t].Idle? then Some(e.c.op) else None
  }

  /** `try_lock` may fail where it reads a locked word, a timed lock where its poll times out, and an
      asynchronous operation where it was cancelled or its wait failed. */
  predicate Reason(pc: Pc, m: Shared, cancelled: bool, c: Choice) {
    match pc
    case TryLoad(caller) => caller.Plain? && m.word.locked
    case TryCas(caller, _) => caller.Plain? && m.word.locked
    case Loop(_, s) => s.locked && c.Expire?
    case AsyncWait(_) => c.Expire?
    case AsyncCheck(_, _) => cancelled
    case _ => false
  }

  predicate Excuse(s: State, e: Event) {
    e.Do? && e.t in s.threads && Reason(s.threads[e.t], s.mem, e.t in s.cancelled, e.c)
  }

  /** A call returns to its caller with the lock, or without it. */
  function Returns(pc: Pc): Outcome {
    if pc.Holding? then Won else if pc.Idle? then Lost else Inside
  }

  function OutcomeOf(s: State, e: Event): Outcome {
    if e.t in s.threads then Returns(Step(s, e).threads[e.t]) else Inside
  }

  predicate InMode(op: Operation, mode: Mode) {
    match mode
    case Untimed => op == Lock
    case TimedFor => op == TryLockFor
    case TimedUntil => op == TryLockUntil
  }

  predicate Timed(op: Operation) {
    op == TryLockFor || op == TryLockUntil
  }

  predicate CalledBy(op: Operation, caller: Caller) {
    match caller
    case Plain => op == TryLock
    case UntilStart => op == TryLockUntil
    case UntilExpired => op == TryLockUntil
    case AsyncStart => op == AsyncAcquire
    case AsyncReady(_) => op == AsyncAcquire
  }

  /** Where a call of `op` may be. */
  predicate Serves(op: Operation, pc: Pc) {
    match pc
    case FastCas => op == Lock
    case SpinLoad(mode) => InMode(op, mode) && op != TryLockFor
    case Spin(mode, _) => InMode(op, mode) && op != TryLockFor
    case Register(mode) => InMode(op, mode)
    case Loop(mode, _) => InMode(op, mode)
    case Drain(mode) => InMode(op, mode)
    case Reload(mode) => InMode(op, mode)
    case AcquiredDrain => op == Lock || Timed(op)
    case Leave(_) => Timed(op)
    case TryLoad(caller) => CalledBy(op, caller)
    case TryCas(caller, _) => CalledBy(op, caller)
    case AsyncRegister => op == AsyncAcquire
    case AsyncWait(_) => op == AsyncAcquire
    case AsyncCheck(_, _) => op == AsyncAcquire
    case AsyncDrain => op == AsyncAcquire
    case AsyncLeave(_) => op == AsyncAcquire
    case AsyncHandler(_) => op == AsyncAcquire
    case _ => false
  }

  predicate Grants(op: Operation, pc: Pc) {
    pc.Holding?
  }

  /** Where a thread in no call may be: away, inside the critical section, or unlocking. */
  predicate Outside(pc: Pc) {
    pc.Idle? || pc.Holding? || pc.UnlockWrite?
  }

  /** Where only a call is that met a reason to fail. */
  predicate GivingUp(pc: Pc) {
    || ((pc.Leave? || pc.AsyncLeave? || pc.AsyncHandler?) && !pc.owned)
    || (pc.AsyncCheck? && pc.failed)
    || Expired(pc)
  }

  predicate Holds(pc: Pc) {
    pc.Holding?
  }

  predicate CanFail(op: Operation) {
    op != Lock
  }

  predicate Gains(op: Operation) {
    false
  }

  function Gained(s: State): int {
    0
  }

  function Mutex(): Interface<State, Event, Pc, Operation> {
    Interface(Step, Threads, Actor, CallOf, Excuse, OutcomeOf, Serves, Grants, Outside, GivingUp, Holds,
              CanFail, Gains, Gained)
  }

  lemma SpinServes(op: Operation, pc: Pc, m: Shared, c: Choice)
    requires Serves(op, pc) && InSpin(pc)
    ensures var pc' := ActSpin(pc, m, c).0;
            Serving(Mutex(), op, pc', Returns(pc'), GivingUp(pc) || Reason(pc, m, false, c), 0)
  {
  }

  lemma WaitServesCall(op: Operation, pc: Pc, m: Shared, c: Choice)
    requires Serves(op, pc) && InWait(pc)
    ensures var pc' := ActWait(pc, m, c).0;
            Serving(Mutex(), op, pc', Returns(pc'), GivingUp(pc) || Reason(pc, m, false, c), 0)
  {
  }

  lemma TryServesCall(op: Operation, pc: Pc, m: Shared, c: Choice)
    requires Serves(op, pc) && InTry(pc)
    ensures var pc' := ActTry(pc, m, c).0;
            Serving(Mutex(), op, pc', Returns(pc'), GivingUp(pc) || Reason(pc, m, false, c), 0)
  {
  }

  lemma AsyncServesCall(op: Operation, pc: Pc, m: Shared, x: bool, c: Choice)
    requires Serves(op, pc) && !InSpin(pc) && !InWait(pc) && !InTry(pc)
    ensures var pc' := ActAsync(pc, m, x, c).0;
            Serving(Mutex(), op, pc', Returns(pc'), GivingUp(pc) || Reason(pc, m, x, c), 0)
  {
  }

  lemma ActServesCall(op: Operation, pc: Pc, m: Shared, x: bool, c: Choice)
    requires Serves(op, pc)
    ensures var pc' := Act(pc, m, x, c).0;
            Serving(Mutex(), op, pc', Returns(pc'), GivingUp(pc) || Reason(pc, m, x, c), 0)
  {
    if InSpin(pc) {
      SpinServes(op, pc, m, c);
    } else if InWait(pc) {
      WaitServesCall(op, pc, m, c);
    } else if InTry(pc) {
      TryServesCall(op, pc, m, c);
    } else {
      AsyncServesCall(op, pc, m, x, c);
    }
  }

  /** Entering an operation, unlocking, or staying away. */
  lemma ActOutside(pc: Pc, m: Shared, x: bool, c: Choice)
    requires Outside(pc)
    ensures var pc' := Act(pc, m, x, c).0;
            if pc.Idle? && c.Call? then Serving(Mutex(), c.op, pc', Returns(pc'), false, 0)
            else Resting(Mutex(), pc, pc', 0)
  {
  }

  lemma StepServes(s: State, e: Event)
    ensures StepOk(Mutex(), s, e)
  {
    if e.t in s.threads && e.Do? {
      var pc, x := s.threads[e.t], e.t in s.cancelled;
      var pc' := Act(pc, s.mem, x, e.c).0;
      forall op | Serves(op, pc) ensures Serving(Mutex(), op, pc', Returns(pc'), GivingUp(pc) || Excuse(s, e), 0) {
        ActServesCall(op, pc, s.mem, x, e.c);
      }
      if Outside(pc) { ActOutside(pc, s.mem, x, e.c); }
      MovedIsOk(Mutex(), s, e);
    } else {
      NothingMovesIsOk(s, e);
    }
  }

  lemma NothingMovesIsOk(s: State, e: Event)
    requires e.t !in s.threads || e.Cancel?
    ensures StepOk(Mutex(), s, e)
  {
    forall op | e.t in s.threads && Serves(op, s.threads[e.t])
      ensures CallOk(Mutex(), s, e, op, GivingUp(s.threads[e.t])) {}
  }

  /** In every run, per thread and operation: each call begun has returned once or is under way at one of its own
      places; a call that returned with the lock left its thread inside the critical section, and no other way
      leads there; `lock` never returned without it; `try_lock` did only after it read a locked word, a timed lock
      after a timeout, and an asynchronous operation after a cancel or a failed wait. */
  lemma CallsReturn(threads: set<Tid>, es: seq<Event>, t: Tid, op: Operation)
    ensures var x := WatchedRun(Mutex(), Init(threads), es);
            && x.s == Run(Step, Init(threads), es)
            && x.calls.begun[(t, op)]
               == x.calls.won[(t, op)] + x.calls.lost[(t, op)] + One(t in x.calls.now && x.calls.now[t] == op)
            && x.calls.lost[(t, Lock)] == 0 && x.calls.unexcused == multiset{}
            && (t in x.s.threads ==>
                  if t in x.calls.now then Serves(x.calls.now[t], x.s.threads[t]) else Outside(x.s.threads[t]))
  {
    forall s, e ensures StepOk(Mutex(), s, e) { StepServes(s, e); }
    AlwaysAnything(Step, Init(threads), es);
    EveryCallIsFair(Mutex(), Anything, AnyState, Init(threads), es);
    FairLedger(Mutex(), WatchedRun(Mutex(), Init(threads), es), t, op);
    FairLedger(Mutex(), WatchedRun(Mutex(), Init(threads), es), t, Lock);
  }

  // ----- a call that is alone with a free mutex takes it

  /** On the way to a free lock, with nothing in between; a ready operation, too, unless it was cancelled. */
  predicate Free(pc: Pc, m: Shared, cancelled: bool) {
    if Owns(pc) then !pc.Leave? && m.word.locked
    else
      && !m.word.locked
      && match pc
         case FastCas => true
         case SpinLoad(_) => true
         case Spin(_, s) => s == m.word
         case Register(_) => true
         case Loop(_, s) => s == m.word
         case TryLoad(caller) => !caller.UntilExpired?
         case TryCas(caller, s) => !caller.UntilExpired? && s == m.word
         case AsyncCheck(_, failed) => !failed && !cancelled
         case _ => false
  }

  /** Instructions left until the call returns with the lock. */
  function Left(pc: Pc, word: LockWord): nat {
    match pc
    case FastCas => if word == FREE then 1 else 3
    case SpinLoad(_) => 2
    case Spin(_, _) => 1
    case Register(_) => 3
    case Loop(_, _) => 2
    case AcquiredDrain => 1
    case TryLoad(caller) => 2 + Delivery(caller)
    case TryCas(caller, _) => 1 + Delivery(caller)
    case AsyncCheck(_, _) => 6
    case AsyncDrain => 3
    case AsyncLeave(_) => 2
    case AsyncHandler(_) => 1
    case _ => 0
  }

  function Delivery(caller: Caller): nat {
    match caller
    case AsyncStart => 1
    case AsyncReady(_) => 3
    case _ => 0
  }

  /** The word once the call has returned: locked, and without its registration. */
  function Taken(pc: Pc, word: LockWord): LockWord {
    (if Registered(pc) then word.RemoveWaiter() else word).Locked()
  }

  /** The registrations fit into the word, this one included. */
  predicate Fits(pc: Pc, word: LockWord) {
    if Registered(pc) then 1 <= word.waiters < TWO31 else word.waiters + 1 < TWO31
  }

  /** One instruction of its own brings the call closer. */
  predicate Closer(pc: Pc, m: Shared, cancelled: bool, r: (Pc, Shared)) {
    && Free(r.0, r.1, cancelled) && Left(r.0, r.1.word) < Left(pc, m.word) && Fits(r.0, r.1.word)
    && Taken(r.0, r.1.word) == Taken(pc, m.word)
  }

  predicate MayGo(pc: Pc, m: Shared, cancelled: bool) {
    Free(pc, m, cancelled) && Left(pc, m.word) > 0 && Fits(pc, m.word)
  }

  lemma SpinCloser(pc: Pc, m: Shared, x: bool)
    requires MayGo(pc, m, x) && InSpin(pc)
    ensures Closer(pc, m, x, ActSpin(pc, m, Go))
  {
  }

  lemma WaitCloser(pc: Pc, m: Shared, x: bool)
    requires MayGo(pc, m, x) && InWait(pc)
    ensures Closer(pc, m, x, ActWait(pc, m, Go))
  {
  }

  lemma TryCloser(pc: Pc, m: Shared, x: bool)
    requires MayGo(pc, m, x) && InTry(pc)
    ensures Closer(pc, m, x, ActTry(pc, m, Go))
  {
  }

  lemma AsyncCloser(pc: Pc, m: Shared, x: bool)
    requires MayGo(pc, m, x) && !InSpin(pc) && !InWait(pc) && !InTry(pc)
    ensures Closer(pc, m, x, ActAsync(pc, m, x, Go))
  {
  }

  lemma FreeStep(pc: Pc, m: Shared, x: bool)
    requires MayGo(pc, m, x)
    ensures Closer(pc, m, x, Act(pc, m, x, Go))
  {
    if InSpin(pc) {
      SpinCloser(pc, m, x);
    } else if InWait(pc) {
      WaitCloser(pc, m, x);
    } else if InTry(pc) {
      TryCloser(pc, m, x);
    } else {
      AsyncCloser(pc, m, x);
    }
  }

  lemma OwnStep(s: State, t: Tid, c: Choice)
    requires t in s.threads
    ensures var s' := Step(s, Do(t, c));
            && t in s'.threads && (s'.threads[t], s'.mem) == Act(s.threads[t], s.mem, t in s.cancelled, c)
            && (s.threads[t].AsyncRegister? || s'.cancelled == s.cancelled)
  {
  }

  /** Thread `t` is on its way to a free lock, and `word` is what it will leave. */
  predicate OnItsWay(s: State, t: Tid, word: LockWord) {
    && t in s.threads && Free(s.threads[t], s.mem, t in s.cancelled) && Fits(s.threads[t], s.mem.word)
    && Taken(s.threads[t], s.mem.word) == word
  }

  function LeftOf(s: State, t: Tid): nat {
    if t in s.threads then Left(s.threads[t], s.mem.word) else 0
  }

  lemma StaysOnItsWay(s: State, t: Tid, word: LockWord)
    requires OnItsWay(s, t, word) && LeftOf(s, t) > 0
    ensures OnItsWay(Step(s, Do(t, Go)), t, word) && LeftOf(Step(s, Do(t, Go)), t) < LeftOf(s, t)
  {
    OwnStep(s, t, Go);
    FreeStep(s.threads[t], s.mem, t in s.cancelled);
  }

  lemma FreeLockIsTaken(s: State, t: Tid, word: LockWord) returns (es: seq<Event>)
    requires OnItsWay(s, t, word)
    ensures |es| <= LeftOf(s, t) && (forall e :: e in es ==> e == Do(t, Go))
    ensures var s' := Run(Step, s, es); t in s'.threads && s'.threads[t].Holding? && s'.mem.word == word
  {
    var path, left := (x: State) => OnItsWay(x, t, word), (x: State) => LeftOf(x, t);
    forall x | path(x) && left(x) > 0 ensures path(Step(x, Do(t, Go))) && left(Step(x, Do(t, Go))) < left(x) {
      StaysOnItsWay(x, t, word);
    }
    es := Arrives(Step, Do(t, Go), path, left, s);
    var s' := Run(Step, s, es);
    assert path(s') && left(s') == 0;
    AtTheEnd(s'.threads[t], s'.mem, t in s'.cancelled);
  }

  lemma AtTheEnd(pc: Pc, m: Shared, cancelled: bool)
    requires Free(pc, m, cancelled) && Left(pc, m.word) == 0
    ensures pc.Holding? && Taken(pc, m.word) == m.word
  {
  }

  /** Every operation, called on a free mutex and left alone, returns with the lock after at most four
      instructions of its own, and leaves the other registrations as they were. */
  lemma CallOnFreeMutexTakesIt(s: State, t: Tid, op: Operation) returns (es: seq<Event>)
    requires t in s.threads && s.threads[t].Idle? && !s.mem.word.locked && s.mem.word.waiters + 1 < TWO31
    ensures |es| <= 4 && forall e :: e in es ==> e == Do(t, Go)
    ensures var s' := Run(Step, Step(s, Do(t, Call(op))), es);
            t in s'.threads && s'.threads[t].Holding? && s'.mem.word == s.mem.word.Locked()
  {
    es := FreeLockIsTaken(Step(s, Do(t, Call(op))), t, s.mem.word.Locked());
  }

  /** An operation whose wait completed, and which nobody cancelled, takes a free lock: its next three
      instructions set the lock bit and consume a token, and three more hand the lock to its handler. */
  lemma ReadyOperationTakesLock(s: State, t: Tid) returns (es: seq<Event>)
    requires t in s.threads && s.threads[t].AsyncCheck? && !s.threads[t].failed && t !in s.cancelled
    requires !s.mem.word.locked && 1 <= s.mem.word.waiters < TWO31
    ensures |es| <= 6 && forall e :: e in es ==> e == Do(t, Go)
    ensures var s' := Run(Step, s, es);
            t in s'.threads && s'.threads[t].Holding? && s'.mem.word == s.mem.word.RemoveWaiter().Locked()
  {
    es := FreeLockIsTaken(s, t, s.mem.word.RemoveWaiter().Locked());
  }

  // ----- the other ways out

  /** A timed lock whose poll timed out takes its registration back and returns without the lock, if the
      lock is held when it tries once more. */
  lemma TimeoutReturns(s: State, t: Tid) returns (es: seq<Event>)
    requires t in s.threads && s.threads[t].Loop? && s.threads[t].s.locked && !s.threads[t].mode.Untimed?
    requires s.mem.word.locked
    ensures |es| <= 2 && forall e :: e in es ==> e == Do(t, Go)
    ensures Returned(Run(Step, Step(s, Do(t, Expire)), es), t, s.mem)
  {
    var e, s1 := Do(t, Go), Step(s, Do(t, Expire));
    OwnStep(s, t, Expire);
    if s.threads[t].mode.TimedUntil? {
      ExpiredTryReturns(s1, t);
      es := [e] + [e];
    } else {
      LeaveReturns(s1, t);
      es := [e];
    }
  }

  /** Thread `t` is away, and the memory is `m` without its registration. */
  predicate Returned(s: State, t: Tid, m: Shared) {
    t in s.threads && s.threads[t].Idle? && s.mem == m.(word := m.word.RemoveWaiter())
  }

  lemma ExpiredTryReturns(s: State, t: Tid)
    requires t in s.threads && s.threads[t] == TryLoad(UntilExpired) && s.mem.word.locked
    ensures Returned(Run(Step, s, [Do(t, Go)] + [Do(t, Go)]), t, s.mem)
  {
    OwnStep(s, t, Go);
    LeaveReturns(Step(s, Do(t, Go)), t);
    Prepend(Step, s, Do(t, Go), [Do(t, Go)]);
  }

  lemma LeaveReturns(s: State, t: Tid)
    requires t in s.threads && s.threads[t] == Leave(false)
    ensures Returned(Run(Step, s, [Do(t, Go)]), t, s.mem)
  {
    OwnStep(s, t, Go);
    Prepend(Step, s, Do(t, Go), []);
    assert [Do(t, Go)] + [] == [Do(t, Go)];
  }

  /** `unlock` frees the lock, keeps the registrations, and writes one token exactly if there are any. */
  lemma UnlockFrees(s: State, t: Tid) returns (es: seq<Event>)
    requires t in s.threads && s.threads[t].Holding? && s.mem.tokens < EVENTFD_MAX
    ensures |es| <= 2 && forall e :: e in es ==> e == Do(t, Go)
    ensures var s' := Run(Step, s, es);
            && t in s'.threads && s'.threads[t].Idle? && s'.mem.word == s.mem.word.Unlocked()
            && s'.mem.tokens == s.mem.tokens + One(s.mem.word.waiters > 0)
  {
    var e := Do(t, Go);
    Prepend(Step, s, e, []);
    es := [e];
    if s.mem.word.waiters > 0 {
      Prepend(Step, Step(s, e), e, []);
      Prepend(Step, s, e, [e]);
      es := [e] + [e];
    }
  }

  /** An operation whose wait failed, or that was cancelled when its wait completed, takes its registration back
      and runs its handler without the lock, by at most four instructions. */
  lemma ToldOperationReturns(s: State, t: Tid, c: Choice) returns (es: seq<Event>)
    requires t in s.threads && s.threads[t].AsyncWait?
    requires c.Expire? || (c.Flake? && t in s.cancelled)
    ensures |es| <= 3 && forall e :: e in es ==> e == Do(t, Go)
    ensures Returned(Run(Step, Step(s, Do(t, c)), es), t, s.mem)
  {
    var e := Do(t, Go);
    OwnStep(s, t, c);
    ToldReturns(Step(s, Do(t, c)), t);
    es := [e] + ([e] + [e]);
  }

  lemma ToldReturns(s: State, t: Tid)
    requires t in s.threads && s.threads[t].AsyncCheck? && (s.threads[t].failed || t in s.cancelled)
    ensures Returned(Run(Step, s, [Do(t, Go)] + ([Do(t, Go)] + [Do(t, Go)])), t, s.mem)
  {
    OwnStep(s, t, Go);
    AsyncLeaveReturns(Step(s, Do(t, Go)), t);
    Prepend(Step, s, Do(t, Go), [Do(t, Go)] + [Do(t, Go)]);
  }

  lemma AsyncLeaveReturns(s: State, t: Tid)
    requires t in s.threads && s.threads[t] == AsyncLeave(false)
    ensures Returned(Run(Step, s, [Do(t, Go)] + [Do(t, Go)]), t, s.mem)
  {
    var e, s1 := Do(t, Go), Step(s, Do(t, Go));
    OwnStep(s, t, Go);
    OwnStep(s1, t, Go);
    Prepend(Step, s, e, [e]);
    Prepend(Step, s1, e, []);
    assert [e] + [] == [e];
  }

  /** A call that spins registers only when its spin phase is over; `try_lock_for` has none. */
  lemma SpinsBeforeRegistering(s: State, e: Event)
    requires e.t in s.threads && Step(s, e).threads[e.t].Register? && !s.threads[e.t].Register?
    ensures e.Do?
    ensures || (s.threads[e.t].Spin? && s.threads[e.t].s.locked && e.c.Expire?)
            || (s.threads[e.t].Idle? && e.c == Call(TryLockFor))
  {
  }

  // ----- the tokens

  /** The next instruction drains the eventfd. */
  predicate Drains(pc: Pc) {
    pc.Drain? || pc.AcquiredDrain? || pc.AsyncDrain?
  }

  predicate NotFull(s: State, e: Event) {
    s.mem.tokens < EVENTFD_MAX
  }

  function TokensDrained(s: State, e: Event): nat {
    One(e.Do? && e.t in s.threads && Drains(s.threads[e.t]) && s.mem.tokens > 0)
  }

  function WaitersFound(s: State, e: Event): nat {
    One(e.Do? && e.c.Go? && e.t in s.threads && s.threads[e.t].Holding? && s.mem.word.waiters > 0)
  }

  /** Over a run. */
  function Drained(s: State, es: seq<Event>): nat
    decreases |es|
  {
    if es == [] then 0 else TokensDrained(s, es[0]) + Drained(Step(s, es[0]), es[1..])
  }

  function Found(s: State, es: seq<Event>): nat
    decreases |es|
  {
    if es == [] then 0 else WaitersFound(s, es[0]) + Found(Step(s, es[0]), es[1..])
  }

  lemma StepKeepsTokens(s: State, e: Event)
    requires NotFull(s, e)
    ensures Step(s, e).mem.tokens + Count(Step(s, e).threads, Writing) + TokensDrained(s, e)
            == s.mem.tokens + Count(s.threads, Writing) + WaitersFound(s, e)
  {
    if e.t in s.threads && e.Do? {
      OwnStep(s, e.t, e.c);
      CountUpdate(s.threads, e.t, Step(s, e).threads[e.t], Writing);
      if Writing(s.threads[e.t]) { CountHas(s.threads, e.t, Writing); }
      ActKeepsTokens(s.threads[e.t], s.mem, e.t in s.cancelled, e.c);
    }
  }

  lemma ActKeepsTokens(pc: Pc, m: Shared, x: bool, c: Choice)
    requires m.tokens < EVENTFD_MAX
    ensures var (pc', m') := Act(pc, m, x, c);
            m'.tokens + One(Writing(pc')) + One(Drains(pc) && m.tokens > 0)
            == m.tokens + One(Writing(pc)) + One(c.Go? && pc.Holding? && m.word.waiters > 0)
  {
    if InSpin(pc) {
      SpinLeavesTokens(pc, m, c);
    } else if InWait(pc) {
      WaitLeavesTokens(pc, m, c);
    }
  }

  lemma SpinLeavesTokens(pc: Pc, m: Shared, c: Choice)
    requires InSpin(pc)
    ensures ActSpin(pc, m, c).1.tokens == m.tokens && !Writing(ActSpin(pc, m, c).0)
  {
  }

  lemma WaitLeavesTokens(pc: Pc, m: Shared, c: Choice)
    requires InWait(pc)
    ensures ActWait(pc, m, c).1.tokens + One(Drains(pc) && m.tokens > 0) == m.tokens && !Writing(ActWait(pc, m, c).0)
  {
  }

  /** In every run the tokens in the eventfd, those drained and those about to be written are as many as the
      unlocks that found a waiter: no other instruction writes or takes one, and every drain takes one if it can. */
  lemma {:induction false} TokensAccounted(s: State, es: seq<Event>)
    requires Always(Step, NotFull, s, es)
    ensures var s' := Run(Step, s, es);
            s'.mem.tokens + Count(s'.threads, Writing) + Drained(s, es)
            == s.mem.tokens + Count(s.threads, Writing) + Found(s, es)
    decreases |es|
  {
    if es != [] {
      StepKeepsTokens(s, es[0]);
      TokensAccounted(Step(s, es[0]), es[1..]);
    }
  }

  /** A token completes the wait of an asynchronous operation; on a free lock the operation then takes it and runs
      its handler, by at most six instructions. */
  lemma TokenLetsOperationIn(s: State, t: Tid) returns (es: seq<Event>)
    requires t in s.threads && s.threads[t].AsyncWait? && t !in s.cancelled
    requires s.mem.tokens > 0 && !s.mem.word.locked && 1 <= s.mem.word.waiters < TWO31
    ensures |es| <= 6 && forall e :: e in es ==> e == Do(t, Go)
    ensures var s' := Run(Step, Step(s, Do(t, Go)), es);
            t in s'.threads && s'.threads[t].Holding? && s'.mem.word == s.mem.word.RemoveWaiter().Locked()
  {
    OwnStep(s, t, Go);
    es := ReadyOperationTakesLock(Step(s, Do(t, Go)), t);
  }

  /** A poll waits exactly while the eventfd is empty. */
  lemma PollWaitsWhileEmpty(s: State, t: Tid)
    requires t in s.threads && ((s.threads[t].Loop? && s.threads[t].s.locked) || s.threads[t].AsyncWait?)
    ensures t in Step(s, Do(t, Go)).threads
    ensures Step(s, Do(t, Go)).threads[t] == s.threads[t] <==> s.mem.tokens == 0
  {
    OwnStep(s, t, Go);
  }

  /** A call that is done spinning on a held mutex registers and polls. */
  lemma SpinEndsInPoll(s: State, t: Tid)
    requires t in s.threads && s.threads[t].Spin? && s.threads[t].s.locked && s.mem.word.locked
    ensures var s1 := Step(s, Do(t, Expire));
            var s2 := Step(s1, Do(t, Go));
            && t in s2.threads && s2.threads[t] == Loop(s.threads[t].mode, s.mem.word.AddWaiter())
            && s2.mem == s.mem.(word := s.mem.word.AddWaiter())
  {
    OwnStep(s, t, Expire);
    OwnStep(Step(s, Do(t, Expire)), t, Go);
  }
}
