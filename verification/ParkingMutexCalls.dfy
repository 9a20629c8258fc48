/** What the callers of the parking mutex get: `ParkingMutex` with the observer of `Calls`. */
module ParkingMutexCalls {
  import opened AbstractLock
  import opened Calls
  import opened LockWords
  import opened Options
  import opened ParkingMutex
  import opened Runs
  import opened ThreadMaps
  import opened Words

  function Threads(s: State): map<Tid, Pc> {
    s.threads
  }

  function Actor(e: Event): Tid {
    e.t
  }

  /** The plain and the backoff class have no timed operation. */
  predicate Offered(v: Variant, op: Operation) {
    op == TryLockUntil ==> v.timed
  }

  function CallOf(s: State, e: Event): Option<Operation> {
    if e.c.Call? && Offered(s.variant, e.c.op) && e.t in s.threads && s.threads[e.t].Idle? then Some(e.c.op) else None
  }

  /** `try_lock` may fail where the word is not zero, a timed lock where its wait times out. */
  predicate Reason(pc: Pc, word: LockWord, c: Choice) {
    match pc
    case TryCas(until) => !until && word != FREE
    case Loop(timed, expected) => timed && expected.locked && c.Expire?
    case Parked(timed, _) => timed && c.Expire?
    case _ => false
  }

  predicate Excuse(s: State, e: Event) {
    e.t in s.threads && Reason(s.threads[e.t], s.word, e.c)
  }

  function Returns(pc: Pc): Outcome {
    if pc.Holding? then Won else if pc.Idle? then Lost else Inside
  }

  function OutcomeOf(s: State, e: Event): Outcome {
    if e.t in s.threads then Returns(Step(s, e).threads[e.t]) else Inside
  }

  /** Where a call of `op` may be. */
  predicate Serves(op: Operation, pc: Pc) {
    match pc
    case FastCas => op == Lock
    case Spin(_) => op == Lock
    case TryCas(until) => op == if until then TryLockUntil else TryLock
    case Register(timed) => op == if timed then TryLockUntil else Lock
    case Reload(timed) => op == if timed then TryLockUntil else Lock
    case Loop(timed, _) => op == if timed then TryLockUntil else Lock
    case Parked(timed, _) => op == if timed then TryLockUntil else Lock
    case GiveUpLoad => op == TryLockUntil
    case GiveUp(_) => op == TryLockUntil
    case _ => false
  }

  predicate Grants(op: Operation, pc: Pc) {
    pc.Holding?
  }

  predicate Outside(pc: Pc) {
    pc.Idle? || pc.Holding? || pc.Notify?
  }

  predicate GivingUp(pc: Pc) {
    pc.GiveUpLoad? || pc.GiveUp?
  }

  predicate CanFail(op: Operation) {
    op != Lock
  }

  predicate Gains(op: Operation) {
    true
  }

  /** Acquisitions of the abstract lock. */
  function Acquired(log: seq<Action>): nat {
    if log == [] then 0 else Acquired(log[..|log| - 1]) + One(log[|log| - 1].Acquire?)
  }

  lemma AcquiredAppend(log: seq<Action>, a: Action)
    ensures Acquired(log + [a]) == Acquired(log) + One(a.Acquire?)
  {
    assert (log + [a])[..|log|] == log;
  }

  function Gained(s: State): int {
    Acquired(s.log)
  }

  function Mutex(): Interface<State, Event, Pc, Operation> {
    Interface(Step, Threads, Actor, CallOf, Excuse, OutcomeOf, Serves, Grants, Outside, GivingUp, Holds,
              CanFail, Gains, Gained)
  }

  lemma FastServes(op: Operation, v: Variant, pc: Pc, word: LockWord, c: Choice)
    requires Serves(op, pc) && !Registers(pc)
    ensures var pc' := ActFast(v, pc, word, c).0;
            Serving(Mutex(), op, pc', Returns(pc'), GivingUp(pc) || Reason(pc, word, c), One(pc'.Holding?))
  {
  }

  lemma WaitServes(op: Operation, pc: Pc, word: LockWord, c: Choice)
    requires Serves(op, pc) && Registers(pc)
    ensures var pc' := ActWait(pc, word, c).0;
            Serving(Mutex(), op, pc', Returns(pc'), GivingUp(pc) || Reason(pc, word, c), One(pc'.Holding?))
  {
  }

  lemma ActOutside(v: Variant, pc: Pc, word: LockWord, c: Choice)
    requires Outside(pc) && !pc.Notify?
    ensures var pc' := Act(v, pc, word, c).0;
            if pc.Idle? && c.Call? && Offered(v, c.op) then Serving(Mutex(), c.op, pc', Returns(pc'), false, 0)
            else Resting(Mutex(), pc, pc', 0)
  {
  }

  /** What a step adds to the acquisitions. */
  lemma GainsAcquire(s: State, t: Tid, pc: Pc, word: LockWord)
    requires t in s.threads
    ensures Gained(Moved(s, t, pc, word)) == Gained(s) + One(Holds(pc) && !Holds(s.threads[t]))
  {
    AcquiredAppend(s.log, Acquire(t));
    AcquiredAppend(s.log, Release(t));
  }

  lemma NotifyIsOk(s: State, e: Event)
    requires e.t in s.threads && s.threads[e.t].Notify?
    ensures StepOk(Mutex(), s, e)
  {
    var s' := NotifyOne(s, e.t, e.c);
    assert s'.threads.Keys == s.threads.Keys && s'.log == s.log;
    forall u | u in s.threads && u != e.t ensures Alike(Mutex(), s.threads[u], s'.threads[u]) {}
  }

  lemma StepServes(s: State, e: Event)
    ensures StepOk(Mutex(), s, e)
  {
    if e.t in s.threads && s.threads[e.t].Notify? {
      NotifyIsOk(s, e);
    } else if e.t in s.threads {
      var pc := s.threads[e.t];
      var (pc', word) := Act(s.variant, pc, s.word, e.c);
      GainsAcquire(s, e.t, pc', word);
      forall op | Serves(op, pc)
        ensures Serving(Mutex(), op, pc', Returns(pc'), GivingUp(pc) || Excuse(s, e), One(pc'.Holding?))
      {
        if Registers(pc) { WaitServes(op, pc, s.word, e.c); } else { FastServes(op, s.variant, pc, s.word, e.c); }
      }
      if Outside(pc) { ActOutside(s.variant, pc, s.word, e.c); }
      MovedIsOk(Mutex(), s, e);
    }
  }

  /** In every run of all four variants, per thread and operation: each call begun has returned once or is under
      way at one of its own places; `lock` never returned without the lock; `try_lock` did only where the word
      was not zero, a timed lock only after a timeout; and the acquisitions of the abstract lock are as many as
      the calls that returned with it. */
  lemma CallsReturn(variant: Variant, threads: set<Tid>, es: seq<Event>, t: Tid, op: Operation)
    ensures var x := WatchedRun(Mutex(), Init(variant, threads), es);
            && x.s == Run(Step, Init(variant, threads), es)
            && x.calls.begun[(t, op)]
               == x.calls.won[(t, op)] + x.calls.lost[(t, op)] + One(t in x.calls.now && x.calls.now[t] == op)
            && x.calls.lost[(t, Lock)] == 0 && x.calls.unexcused == multiset{}
            && x.calls.gained == Acquired(x.s.log)
            && (t in x.s.threads ==>
                  if t in x.calls.now then Serves(x.calls.now[t], x.s.threads[t]) else Outside(x.s.threads[t]))
  {
    var s0 := Init(variant, threads);
    forall s, e ensures StepOk(Mutex(), s, e) { StepServes(s, e); }
    AlwaysAnything(Step, s0, es);
    EveryCallIsFair(Mutex(), Anything, AnyState, s0, es);
    FairLedger(Mutex(), WatchedRun(Mutex(), s0, es), t, op);
    FairLedger(Mutex(), WatchedRun(Mutex(), s0, es), t, Lock);
  }

  /** The abstract lock is acquired by the very step in which a call returns with the lock. */
  lemma AcquiresAsItReturns(x: Watched<State, Operation>, e: Event)
    requires Fair(Mutex(), x) && e.t in x.s.threads
    ensures var x' := Watch(Mutex(), x, e);
            && (x'.s.log == x.s.log + [Acquire(e.t)] <==> e.t in x.calls.now && x'.s.threads[e.t].Holding?)
            && (e.t in x.calls.now && x'.s.threads[e.t].Holding? ==>
                  x'.calls.won == x.calls.won + multiset{(e.t, x.calls.now[e.t])})
  {
    assert Placed(Mutex(), x, e.t);
    LogGrowsByOwnAcquire(x.s, e);
    StepServes(x.s, e);
    if e.t in x.calls.now {
      assert CallOk(Mutex(), x.s, e, x.calls.now[e.t], GivingUp(x.s.threads[e.t]));
    }
  }

  lemma LogGrowsByOwnAcquire(s: State, e: Event)
    requires e.t in s.threads
    ensures e.t in Step(s, e).threads
    ensures Step(s, e).log == s.log + [Acquire(e.t)] <==>
            Step(s, e).threads[e.t].Holding? && !s.threads[e.t].Holding?
  {
    assert |s.log + [Acquire(e.t)]| == |s.log| + 1 && (s.log + [Acquire(e.t)])[|s.log|] == Acquire(e.t);
  }

  // ----- a call that is alone with a free mutex takes it

  /** On the way to a free lock, with nothing in between. */
  predicate Free(pc: Pc, word: LockWord) {
    match pc
    case Holding => word.locked
    case FastCas => !word.locked
    case Spin(expected) => !word.locked && expected == word
    case TryCas(until) => !word.locked && (until || word == FREE)
    case Register(_) => !word.locked
    case Reload(_) => !word.locked
    case Loop(_, expected) => !word.locked && expected == word
    case _ => false
  }

  /** Instructions left until the call returns with the lock. */
  function Left(v: Variant, pc: Pc, word: LockWord): nat {
    match pc
    case FastCas => if word == FREE then 1 else if v.backoff then 2 else 4
    case TryCas(_) => if word == FREE then 1 else 4
    case Register(_) => 3
    case Reload(_) => 2
    case Loop(_, _) => 1
    case Spin(_) => 1
    case _ => 0
  }

  /** The word once the call has returned: locked, and without its registration. */
  function Taken(pc: Pc, word: LockWord): LockWord {
    (if Registered(pc) then word.RemoveWaiter() else word).Locked()
  }

  predicate Fits(pc: Pc, word: LockWord) {
    if Registered(pc) then 1 <= word.waiters < TWO31 else word.waiters + 1 < TWO31
  }

  lemma FreeStep(v: Variant, pc: Pc, word: LockWord)
    requires Free(pc, word) && Left(v, pc, word) > 0 && Fits(pc, word)
    ensures var (pc', word') := Act(v, pc, word, Go);
            && Free(pc', word') && Left(v, pc', word') < Left(v, pc, word) && Fits(pc', word')
            && Taken(pc', word') == Taken(pc, word)
  {
  }

  predicate OnItsWay(s: State, v: Variant, t: Tid, word: LockWord) {
    && s.variant == v && t in s.threads && Free(s.threads[t], s.word) && Fits(s.threads[t], s.word)
    && Taken(s.threads[t], s.word) == word
  }

  function LeftOf(s: State, t: Tid): nat {
    if t in s.threads then Left(s.variant, s.threads[t], s.word) else 0
  }

  lemma StaysOnItsWay(s: State, v: Variant, t: Tid, word: LockWord)
    requires OnItsWay(s, v, t, word) && LeftOf(s, t) > 0
    ensures OnItsWay(Step(s, Do(t, Go)), v, t, word) && LeftOf(Step(s, Do(t, Go)), t) < LeftOf(s, t)
  {
    FreeStep(v, s.threads[t], s.word);
  }

  lemma FreeLockIsTaken(s: State, v: Variant, t: Tid, word: LockWord) returns (es: seq<Event>)
    requires OnItsWay(s, v, t, word)
    ensures |es| <= LeftOf(s, t) && forall e :: e in es ==> e == Do(t, Go)
    ensures var s' := Run(Step, s, es); t in s'.threads && s'.threads[t].Holding? && s'.word == word
  {
    var path, left := (x: State) => OnItsWay(x, v, t, word), (x: State) => LeftOf(x, t);
    forall x | path(x) && left(x) > 0 ensures path(Step(x, Do(t, Go))) && left(Step(x, Do(t, Go))) < left(x) {
      StaysOnItsWay(x, v, t, word);
    }
    es := Arrives(Step, Do(t, Go), path, left, s);
    var s' := Run(Step, s, es);
    assert path(s') && left(s') == 0;
  }

  /** `lock` and the timed operation, called on a free mutex and left alone, return with the lock after at most
      four instructions of their own, whoever is registered; `try_lock` does so if nobody is. */
  lemma CallOnFreeMutexTakesIt(s: State, t: Tid, op: Operation) returns (es: seq<Event>)
    requires t in s.threads && s.threads[t].Idle? && !s.word.locked && s.word.waiters + 1 < TWO31
    requires Offered(s.variant, op) && (op == TryLock ==> s.word == FREE)
    ensures |es| <= 4 && forall e :: e in es ==> e == Do(t, Go)
    ensures var s' := Run(Step, Step(s, Do(t, Call(op))), es);
            t in s'.threads && s'.threads[t].Holding? && s'.word == s.word.Locked()
  {
    es := FreeLockIsTaken(Step(s, Do(t, Call(op))), s.variant, t, s.word.Locked());
  }

  /** `try_lock` compares the whole word with zero: it takes the lock exactly if nobody holds it and nobody is
      registered, so it can fail on a free mutex. */
  lemma TryLockNeedsZero(s: State, t: Tid)
    requires t in s.threads && s.threads[t] == TryCas(false)
    ensures var s' := Step(s, Do(t, Go));
            && t in s'.threads
            && (s'.threads[t].Holding? <==> s.word == FREE) && (s'.threads[t].Idle? <==> s.word != FREE)
            && s'.word == if s.word == FREE then FREE.Locked() else s.word
  {
  }

  // ----- the other ways out

  /** A timed lock whose wait timed out takes its registration back and returns without the lock, if it is held. */
  lemma TimeoutReturns(s: State, t: Tid) returns (es: seq<Event>)
    requires t in s.threads && s.word.locked
    requires (s.threads[t].Loop? && s.threads[t].expected.locked) || s.threads[t].Parked?
    requires s.threads[t].timed
    ensures |es| <= 2 && forall e :: e in es ==> e == Do(t, Go)
    ensures var s' := Run(Step, Step(s, Do(t, Expire)), es);
            t in s'.threads && s'.threads[t].Idle? && s'.word == s.word.RemoveWaiter()
  {
    var e, s1 := Do(t, Go), Step(s, Do(t, Expire));
    assert s1.threads[t] == GiveUpLoad && s1.word == s.word;
    var s2 := Step(s1, e);
    assert s2.threads[t] == GiveUp(s.word) && s2.word == s.word;
    Prepend(Step, s2, e, []);
    Prepend(Step, s1, e, [e]);
    es := [e] + [e];
  }

  /** `unlock` frees the lock, keeps the registrations, and goes on to wake a sleeper exactly if there are any. */
  lemma UnlockFrees(s: State, t: Tid)
    requires t in s.threads && s.threads[t].Holding?
    ensures var s' := Step(s, Do(t, Go));
            && t in s'.threads && s'.threads[t] == (if s.word.waiters > 0 then Notify else Idle)
            && s'.word == s.word.Unlocked()
  {
  }

  /** A class with a spin phase registers an untimed lock only when that is over. */
  lemma SpinsBeforeRegistering(s: State, e: Event)
    requires s.variant.backoff && e.t in s.threads && e.t in Step(s, e).threads
    requires Step(s, e).threads[e.t] == Register(false) && !s.threads[e.t].Register?
    ensures s.threads[e.t].Spin? && s.threads[e.t].expected.locked && e.c.Expire?
  {
  }

  /** A waiter that found the lock held sleeps exactly if the word is still what it loaded; otherwise it reloads. */
  lemma SleepsWhileUnchanged(s: State, t: Tid)
    requires t in s.threads && s.threads[t].Loop? && s.threads[t].expected.locked
    ensures var pc, s' := s.threads[t], Step(s, Do(t, Go));
            && t in s'.threads && s'.word == s.word
            && s'.threads[t] == if s.word == pc.expected then Parked(pc.timed, pc.expected) else Reload(pc.timed)
  {
  }

  /** A timed lock that gives up does not wait again: it retries until its registration is gone, with the lock if
      it finds it free. */
  lemma GivesUpForGood(s: State, t: Tid)
    requires t in s.threads && s.threads[t].GiveUp?
    ensures var s' := Step(s, Do(t, Go));
            && t in s'.threads
            && if s.word != s.threads[t].expected then s'.threads[t] == GiveUp(s.word) && s'.word == s.word
               else if s.word.locked then s'.threads[t].Idle? && s'.word == s.word.RemoveWaiter()
               else s'.threads[t].Holding? && s'.word == s.word.RemoveWaiter().Locked()
  {
  }

  /** A lock on a held mutex, done spinning or not made to spin, registers and sleeps. */
  lemma LockOnHeldMutexSleeps(s: State, t: Tid)
    requires t in s.threads && s.word.locked
    requires if s.variant.backoff then s.threads[t].Spin? && s.threads[t].expected.locked else s.threads[t].FastCas?
    ensures var s1 := Step(s, Do(t, if s.variant.backoff then Expire else Go));
            var s' := Run(Step, s1, [Do(t, Go), Do(t, Go), Do(t, Go)]);
            && t in s'.threads && s'.threads[t] == Parked(false, s.word.AddWaiter()) && s'.word == s.word.AddWaiter()
  {
    RegisteringSleeps(Step(s, Do(t, if s.variant.backoff then Expire else Go)), t);
  }

  lemma RegisteringSleeps(s: State, t: Tid)
    requires t in s.threads && s.threads[t] == Register(false) && s.word.locked
    ensures var s' := Run(Step, s, [Do(t, Go), Do(t, Go), Do(t, Go)]);
            && t in s'.threads && s'.threads[t] == Parked(false, s.word.AddWaiter()) && s'.word == s.word.AddWaiter()
  {
    var e, s1, word := Do(t, Go), Step(s, Do(t, Go)), s.word.AddWaiter();
    assert s1.threads[t] == Reload(false) && s1.word == word && word.locked;
    assert Step(s1, e).threads[t] == Loop(false, word) && Step(s1, e).word == word;
    FewSteps(Step, s, e);
  }
}
