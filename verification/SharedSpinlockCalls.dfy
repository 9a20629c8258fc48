/** What the callers of the shared spinlock get: `SharedSpinlock` with the observer of `Calls`. */
module SharedSpinlockCalls {
  import opened Calls
  import opened Options
  import opened Runs
  import opened SharedSpinlock
  import opened ThreadMaps

  function Threads(s: State): map<Tid, Pc> {
    s.threads
  }

  function Actor(e: Event): Tid {
    e.t
  }

  function CallOf(s: State, e: Event): Option<Operation> {
    if e.c.Call? && e.t in s.threads && s.threads[e.t].Idle? then Some(e.c.op) else None
  }

  /** The try operations may fail where the word they load excludes them, or has changed since. */
  predicate Reason(pc: Pc, word: RwWord) {
    match pc
    case TryLockLoad => word.readers > 0 || word.locked
    case TryLockCas(expected) => word != expected
    case SharedLoad(caller) => caller.TryLockShared? && word.Busy()
    case SharedCas(caller, expected) => caller.TryLockShared? && word != expected
    case _ => false
  }

  predicate Excuse(s: State, e: Event) {
    e.t in s.threads && Reason(s.threads[e.t], s.word)
  }

  function Returns(pc: Pc): Outcome {
    if Writing(pc) || Reading(pc) then Won else if pc.Idle? then Lost else Inside
  }

  function OutcomeOf(s: State, e: Event): Outcome {
    if e.t in s.threads then Returns(Step(s, e).threads[e.t]) else Inside
  }

  /** Where a call of `op` may be. */
  predicate Serves(op: Operation, pc: Pc) {
    match pc
    case LockFast => op == Lock
    case LockLoad => op == Lock
    case SetPending(_) => op == Lock
    case DrainLoad => op == Lock
    case LockCas(_) => op == Lock
    case TryLockLoad => op == TryLock
    case TryLockCas(_) => op == TryLock
    case SharedLoad(caller) => op == if caller.TryLockShared? then TryShared else SharedSpinlock.Shared
    case SharedCas(caller, _) => op == if caller.TryLockShared? then TryShared else SharedSpinlock.Shared
    case _ => false
  }

  predicate Exclusive(op: Operation) {
    op == Lock || op == TryLock
  }

  /** The exclusive operations make a writer, the shared ones a reader. */
  predicate Grants(op: Operation, pc: Pc) {
    if Exclusive(op) then Writing(pc) else Reading(pc)
  }

  predicate Outside(pc: Pc) {
    pc.Idle? || Holds(pc)
  }

  predicate Excused(pc: Pc) {
    false
  }

  predicate Holds(pc: Pc) {
    Writing(pc) || Reading(pc)
  }

  predicate CanFail(op: Operation) {
    op == TryLock || op == TryShared
  }

  predicate Gains(op: Operation) {
    true
  }

  function Entries(s: State): int {
    s.writeEntries + s.readEntries
  }

  function Spinlock(): Interface<State, Event, Pc, Operation> {
    Interface(Step, Threads, Actor, CallOf, Excuse, OutcomeOf, Serves, Grants, Outside, Excused, Holds,
              CanFail, Gains, Entries)
  }

  lemma ActServes(op: Operation, pc: Pc, word: RwWord, c: Choice)
    requires Serves(op, pc)
    ensures var pc' := Act(pc, word, c).0;
            Serving(Spinlock(), op, pc', Returns(pc'), Reason(pc, word), One(Holds(pc')))
  {
  }

  lemma ActOutside(pc: Pc, word: RwWord, c: Choice)
    requires Outside(pc)
    ensures var pc' := Act(pc, word, c).0;
            if pc.Idle? && c.Call? then Serving(Spinlock(), c.op, pc', Returns(pc'), false, 0)
            else Resting(Spinlock(), pc, pc', 0)
  {
  }

  lemma StepServes(s: State, e: Event)
    ensures StepOk(Spinlock(), s, e)
  {
    if e.t in s.threads {
      var pc := s.threads[e.t];
      var pc' := Act(pc, s.word, e.c).0;
      forall op | Serves(op, pc)
        ensures Serving(Spinlock(), op, pc', Returns(pc'), Excuse(s, e), One(Holds(pc')))
      {
        ActServes(op, pc, s.word, e.c);
      }
      if Outside(pc) { ActOutside(pc, s.word, e.c); }
      MovedIsOk(Spinlock(), s, e);
    }
  }

  lemma AllStepsServe()
    ensures forall s, e :: StepOk(Spinlock(), s, e)
  {
    forall s, e ensures StepOk(Spinlock(), s, e) { StepServes(s, e); }
  }

  lemma FairFromStart(s: State, es: seq<Event>)
    requires forall s, e :: StepOk(Spinlock(), s, e)
    requires forall t :: t in s.threads ==> s.threads[t].Idle?
    requires Always(Step, Anything, s, es)
    ensures var x := WatchedRun(Spinlock(), s, es);
            x.s == Run(Step, s, es) && Fair(Spinlock(), x) && x.calls.gained == Entries(x.s) - Entries(s)
  {
    EveryCallIsFair(Spinlock(), Anything, AnyState, s, es);
  }

  lemma CallsAreFair(threads: set<Tid>, es: seq<Event>)
    ensures var x := WatchedRun(Spinlock(), Init(threads), es);
            && x.s == Run(Step, Init(threads), es) && Fair(Spinlock(), x)
            && x.calls.gained == Entries(x.s)
  {
    AllStepsServe();
    AlwaysAnything(Step, Init(threads), es);
    FairFromStart(Init(threads), es);
  }

  /** In every run, per thread and operation: each call begun has returned once or is under way at one of its own
      places; `lock` and `lock_shared` never returned without the lock, and the try operations only where the word
      they loaded excluded them or had changed; the exclusive operations return as writer, the shared ones as
      reader, and writers and readers acquired exactly as often as a call returned so. */
  lemma CallsReturn(threads: set<Tid>, es: seq<Event>, t: Tid, op: Operation)
    ensures var x := WatchedRun(Spinlock(), Init(threads), es);
            && x.s == Run(Step, Init(threads), es)
            && x.calls.begun[(t, op)]
               == x.calls.won[(t, op)] + x.calls.lost[(t, op)] + One(t in x.calls.now && x.calls.now[t] == op)
            && (!CanFail(op) ==> x.calls.lost[(t, op)] == 0) && x.calls.unexcused == multiset{}
            && x.calls.gained == x.s.writeEntries + x.s.readEntries
            && (t in x.s.threads ==>
                  if t in x.calls.now then Serves(x.calls.now[t], x.s.threads[t]) else Outside(x.s.threads[t]))
  {
    CallsAreFair(threads, es);
    FairLedger(Spinlock(), WatchedRun(Spinlock(), Init(threads), es), t, op);
  }

  /** A call returns as what it asked for. */
  lemma ReturnsAsAsked(x: Watched<State, Operation>, e: Event)
    requires Fair(Spinlock(), x) && e.t in x.s.threads && e.t in x.calls.now
    ensures var pc := Step(x.s, e).threads[e.t];
            && (Writing(pc) ==> Exclusive(x.calls.now[e.t]))
            && (Reading(pc) ==> !Exclusive(x.calls.now[e.t]))
  {
    assert Placed(Spinlock(), x, e.t);
    StepServes(x.s, e);
    assert CallOk(Spinlock(), x.s, e, x.calls.now[e.t], false);
  }

  // ----- each operation, alone

  /** Without readers and a writer, both exclusive operations, left alone, lock by at most three instructions and
      clear the pending bit. */
  lemma ExclusiveOnFreeLockTakesIt(s: State, t: Tid, op: Operation) returns (es: seq<Event>)
    requires t in s.threads && s.threads[t].Idle? && Exclusive(op) && s.word.readers == 0 && !s.word.locked
    ensures |es| <= 3 && forall e :: e in es ==> e == Do(t, Go)
    ensures var s' := Run(Step, Step(s, Do(t, Call(op))), es);
            t in s'.threads && Writing(s'.threads[t]) && s'.word == RwWord(0, false, true)
  {
    FewSteps(Step, Step(s, Do(t, Call(op))), Do(t, Go));
    var e := Do(t, Go);
    es := if op == TryLock then [e, e] else if s.word == EMPTY then [e] else [e, e, e];
  }

  /** Without a writer and the pending bit, both shared operations, left alone, count themselves by two. */
  lemma SharedOnOpenLockTakesIt(s: State, t: Tid, op: Operation)
    requires t in s.threads && s.threads[t].Idle? && !Exclusive(op) && !s.word.Busy() && s.word.readers + 1 < TWO30
    ensures var s' := Run(Step, Step(s, Do(t, Call(op))), [Do(t, Go), Do(t, Go)]);
            t in s'.threads && Reading(s'.threads[t]) && s'.word == s.word.(readers := s.word.readers + 1)
  {
    FewSteps(Step, Step(s, Do(t, Call(op))), Do(t, Go));
  }

  /** Where the word excludes it, a try operation returns at once and changes nothing. */
  lemma TryOnTakenLockFails(s: State, t: Tid, op: Operation)
    requires t in s.threads && s.threads[t].Idle? && CanFail(op)
    requires if Exclusive(op) then s.word.readers > 0 || s.word.locked else s.word.Busy()
    ensures var s' := Step(Step(s, Do(t, Call(op))), Do(t, Go));
            t in s'.threads && s'.threads[t].Idle? && s'.word == s.word
  {
  }

  /** A `lock` that meets readers announces itself, and waits until they are gone. */
  lemma LockMeetsReaders(s: State, t: Tid)
    requires t in s.threads && s.threads[t].LockLoad? && s.word.readers > 0 && !s.word.Busy()
    ensures var s' := Run(Step, s, [Do(t, Go), Do(t, Go)]);
            t in s'.threads && s'.threads[t].DrainLoad? && s'.word == s.word.(pending := true)
  {
    FewSteps(Step, s, Do(t, Go));
  }

  /** One that meets a writer does not announce itself, and looks again. */
  lemma LockMeetsWriter(s: State, t: Tid)
    requires t in s.threads && s.threads[t].LockLoad? && s.word.locked
    ensures var s' := Step(s, Do(t, Go)); t in s'.threads && s'.threads[t].LockLoad? && s'.word == s.word
  {
  }

  /** A shared lock that is refused looks again until neither a writer holds nor one waits. */
  lemma SharedWaitsOutWriters(s: State, t: Tid)
    requires t in s.threads && s.threads[t] == SharedLoad(LockSharedSlow)
    ensures var s' := Step(s, Do(t, Go));
            && t in s'.threads && s'.word == s.word
            && s'.threads[t] == if s.word.Busy() then SharedLoad(LockSharedSlow) else SharedCas(LockSharedSlow, s.word)
  {
  }
}
