/**
 The fast eventfd mutex: a lock bit and a waiter count in one 32-bit word, and an
 eventfd in semaphore mode that carries the wake-ups. Synchronous lockers, timed
 lockers and asynchronous acquire operations share it.

 One event executes one atomic instruction of one thread. An event that is not
 enabled (a poll on an empty eventfd, say) leaves the state alone.
 */
module EventfdMutex {
  import opened Atomics
  import opened LockWords
  import opened Runs
  import opened ThreadMaps
  import opened Words

  /** Which function entered the registered wait loop. */
  datatype Mode = Untimed | TimedFor | TimedUntil

  /** What called the `try_lock` loop. A `covered` asynchronous waiter registered on a locked word. */
  datatype Caller =
    | Plain | UntilStart | UntilExpired
    | AsyncStart | AsyncReady(covered: bool)

  /** Program counter and locals of one thread, or of one asynchronous acquire operation. */
  datatype Pc =
    | Idle
    | FastCas
    | SpinLoad(mode: Mode)
    | Spin(mode: Mode, s: LockWord)
    | Register(mode: Mode)
    | Loop(mode: Mode, s: LockWord)      // CAS if s is unlocked, poll otherwise
    | Drain                          // consume_lock after poll
      (mode: Mode)
    | Reload(mode: Mode)
    | AcquiredDrain                  // consume_lock after the acquiring CAS
    | Leave(owned: bool)             // the guard's destructor
    | TryLoad(caller: Caller)
    | TryCas(caller: Caller, s: LockWord)
    | Holding
    | UnlockWrite
    | AsyncRegister
    | AsyncWait(covered: bool)
    | AsyncCheck(covered: bool, failed: bool)
    | AsyncDrain
    | AsyncLeave(owned: bool)
    | AsyncHandler(owned: bool)

  datatype Operation = Lock | TryLock | TryLockFor | TryLockUntil | AsyncAcquire

  /** `Flake` is a weak CAS that fails or a poll that returns for no reason; `Expire` ends a
      spin phase, times a poll out, or completes an asynchronous wait with an error. */
  datatype Choice = Go | Flake | Expire | Call(op: Operation)
  datatype Event = Do(t: Tid, c: Choice) | Cancel(t: Tid)

  /** The shared memory: the atomic word and the eventfd counter. */
  datatype Shared = Shared(word: LockWord, tokens: nat)

  /** `begun`, `taken`, `granted` and `handled` are history: per operation, how often it was started,
      took the lock, had its handler run with the lock, and had its handler run at all. */
  datatype State = State(
    mem: Shared, threads: map<Tid, Pc>, cancelled: set<Tid>,
    begun: multiset<Tid>, taken: multiset<Tid>, granted: multiset<Tid>, handled: multiset<Tid>)

  function Init(threads: set<Tid>): State {
    State(Shared(FREE, 0), map t | t in threads :: Idle, {}, multiset{}, multiset{}, multiset{}, multiset{})
  }

  function Enter(op: Operation): Pc {
    match op
    case Lock => FastCas
    case TryLock => TryLoad(Plain)
    case TryLockFor => Register(TimedFor)
    case TryLockUntil => TryLoad(UntilStart)
    case AsyncAcquire => TryLoad(AsyncStart)
  }

  function TrySucceeded(caller: Caller): Pc {
    match caller
    case Plain => Holding
    case UntilStart => Holding
    case UntilExpired => Leave(true)
    case AsyncStart => AsyncHandler(true)
    case AsyncReady(_) => AsyncDrain
  }

  function TryFailed(caller: Caller): Pc {
    match caller
    case Plain => Idle
    case UntilStart => SpinLoad(TimedUntil)
    case UntilExpired => Leave(false)
    case AsyncStart => AsyncRegister
    case AsyncReady(covered) => AsyncWait(covered)
  }

  function TryLoop(caller: Caller, s: LockWord): Pc {
    if s.locked then TryFailed(caller) else TryCas(caller, s)
  }

  /** A nonblocking eventfd read: takes one token if there is one. */
  function Consume(m: Shared): Shared {
    m.(tokens := if m.tokens > 0 then m.tokens - 1 else 0)
  }

  /** `lock` and the spin phases: lines that run before the thread registers. */
  function ActSpin(pc: Pc, m: Shared, c: Choice): (Pc, Shared) {
    match pc
    case FastCas =>
      if c.Go? && m.word == FREE then (Holding, m.(word := m.word.Locked())) else (SpinLoad(Untimed), m)
    case SpinLoad(mode) => (Spin(mode, m.word), m)
    case Spin(mode, s) =>
      if s.locked then (if c.Expire? then Register(mode) else pc, m)
      else if c.Go? && m.word == s then (Holding, m.(word := s.Locked()))
      else (Spin(mode, m.word), m)
    case _ => (pc, m)
  }

  /** The registered wait loop of `lock_slow`, `try_lock_for_ns` and `try_lock_until`. */
  function ActWait(pc: Pc, m: Shared, c: Choice): (Pc, Shared) {
    match pc
    case Register(mode) => (Loop(mode, m.word.AddWaiter()), m.(word := m.word.AddWaiter()))
    case Loop(mode, s) =>
      if !s.locked then
        if c.Go? && m.word == s then (AcquiredDrain, m.(word := s.RemoveWaiter().Locked()))
        else (Loop(mode, m.word), m)
      else if c.Flake? || (c.Go? && m.tokens > 0) then (Drain(mode), m)
      else if c.Expire? && mode.TimedFor? then (Leave(false), m)
      else if c.Expire? && mode.TimedUntil? then (TryLoad(UntilExpired), m)
      else (pc, m)
    case Drain(mode) => (Reload(mode), Consume(m))
    case Reload(mode) => (Loop(mode, m.word), m)
    case AcquiredDrain => (Holding, Consume(m))
    case Leave(owned) => (if owned then Holding else Idle, m.(word := m.word.RemoveWaiter()))
    case _ => (pc, m)
  }

  /** The `try_lock` loop, and `unlock`. */
  function ActTry(pc: Pc, m: Shared, c: Choice): (Pc, Shared) {
    match pc
    case TryLoad(caller) => (TryLoop(caller, m.word), m)
    case TryCas(caller, s) =>
      if c.Go? && m.word == s then (TrySucceeded(caller), m.(word := s.Locked()))
      else (TryLoop(caller, m.word), m)
    case Holding =>
      if c.Go? then (if m.word.waiters > 0 then UnlockWrite else Idle, m.(word := m.word.Unlocked())) else (pc, m)
    case UnlockWrite => (Idle, if m.tokens < EVENTFD_MAX then m.(tokens := m.tokens + 1) else m)
    case _ => (pc, m)
  }

  /** The asynchronous acquire operation and its waiter guard. */
  function ActAsync(pc: Pc, m: Shared, cancelled: bool, c: Choice): (Pc, Shared) {
    match pc
    case AsyncRegister => (AsyncWait(m.word.locked), m.(word := m.word.AddWaiter()))
    case AsyncWait(covered) =>
      if c.Expire? then (AsyncCheck(covered, true), m)
      else if c.Flake? || (c.Go? && m.tokens > 0) then (AsyncCheck(covered, false), m)
      else (pc, m)
    case AsyncCheck(covered, failed) =>
      (if cancelled || failed then AsyncLeave(false) else TryLoad(AsyncReady(covered)), m)
    case AsyncDrain => (AsyncLeave(true), Consume(m))
    case AsyncLeave(owned) => (AsyncHandler(owned), m.(word := m.word.RemoveWaiter()))
    case AsyncHandler(owned) => (if owned then Holding else Idle, m)
    case _ => (pc, m)
  }

  predicate InSpin(pc: Pc) { pc.FastCas? || pc.SpinLoad? || pc.Spin? }
  predicate InWait(pc: Pc) { pc.Register? || pc.Loop? || pc.Drain? || pc.Reload? || pc.AcquiredDrain? || pc.Leave? }
  predicate InTry(pc: Pc) { pc.TryLoad? || pc.TryCas? || pc.Holding? || pc.UnlockWrite? }

  /** One atomic instruction of a thread at `pc`: its next program counter and the new memory. */
  function Act(pc: Pc, m: Shared, cancelled: bool, c: Choice): (Pc, Shared) {
    if pc.Idle? then (if c.Call? then Enter(c.op) else Idle, m)
    else if InSpin(pc) then ActSpin(pc, m, c)
    else if InWait(pc) then ActWait(pc, m, c)
    else if InTry(pc) then ActTry(pc, m, c)
    else ActAsync(pc, m, cancelled, c)
  }

  /** The state after thread `t` moved to `pc` and left the memory as `m`. */
  function Moved(s: State, t: Tid, pc: Pc, m: Shared): State
    requires t in s.threads
  {
    var pc0 := s.threads[t];
    State(m, s.threads[t := pc],
          if pc0.AsyncRegister? then s.cancelled - {t} else s.cancelled,
          Record(s.begun, t, !InFlight(pc0) && InFlight(pc)),
          Record(s.taken, t, pc0.TryCas? && Delivering(pc)),
          Record(s.granted, t, pc0.AsyncHandler? && pc0.owned),
          Record(s.handled, t, pc0.AsyncHandler?))
  }

  function Step(s: State, e: Event): State {
    if e.t !in s.threads then s
    else if e.Cancel? then s.(cancelled := s.cancelled + {e.t})
    else
      var (pc', mem') := Act(s.threads[e.t], s.mem, e.t in s.cancelled, e.c);
      Moved(s, e.t, pc', mem')
  }

  function Record(h: multiset<Tid>, t: Tid, b: bool): multiset<Tid> {
    if b then h + multiset{t} else h
  }

  // ----- classes of program counters

  /** The thread, or the guard of its operation, is counted in the upper 31 bits. */
  predicate Registered(pc: Pc) {
    pc.Loop? || pc.Drain? || pc.Reload? || pc.Leave? || Expired(pc) || AsyncRegistered(pc)
  }

  predicate AsyncRegistered(pc: Pc) {
    || pc.AsyncWait? || pc.AsyncCheck? || pc.AsyncDrain? || pc.AsyncLeave?
    || ((pc.TryLoad? || pc.TryCas?) && pc.caller.AsyncReady?)
  }

  /** A timed waiter that has given up and makes its last `try_lock`. */
  predicate Expired(pc: Pc) {
    (pc.TryLoad? || pc.TryCas?) && pc.caller.UntilExpired?
  }

  /** Between the acquiring CAS and the `fetch_and` of `unlock`. */
  predicate Owns(pc: Pc) {
    || pc.AcquiredDrain? || pc.Holding? || pc.AsyncDrain?
    || ((pc.Leave? || pc.AsyncLeave? || pc.AsyncHandler?) && pc.owned)
  }

  /** Waiters that are promised a wake-up: every synchronous one, and the
      asynchronous ones that registered while the lock was held. */
  predicate Promised(pc: Pc) {
    || pc.Loop? || pc.Drain? || pc.Reload? || pc.Leave? || Expired(pc)
    || ((pc.AsyncWait? || pc.AsyncCheck?) && pc.covered)
    || ((pc.TryLoad? || pc.TryCas?) && pc.caller.AsyncReady? && pc.caller.covered)
  }

  predicate Writing(pc: Pc) {
    pc.UnlockWrite?
  }

  /** A registered waiter about to read the word again, or to CAS on an unlocked value. */
  predicate Looking(pc: Pc) {
    pc.Drain? || pc.Reload? || (pc.Loop? && !pc.s.locked)
  }

  /** The asynchronous operation has been started and its handler has not run. */
  predicate InFlight(pc: Pc) {
    || pc.AsyncRegister? || pc.AsyncHandler? || AsyncRegistered(pc)
    || ((pc.TryLoad? || pc.TryCas?) && pc.caller.AsyncStart?)
  }

  /** The operation took the lock and has not handed it to its handler yet. */
  predicate Delivering(pc: Pc) {
    pc.AsyncDrain? || ((pc.AsyncLeave? || pc.AsyncHandler?) && pc.owned)
  }

  // ----- the invariant

  /** The word is exactly the registrations and the lock bit. */
  ghost predicate Accounting(s: State) {
    && s.mem.word == LockWord(Count(s.threads, Registered), Count(s.threads, Owns) == 1)
    && Count(s.threads, Owns) <= 1
  }

  ghost predicate WakeUpDue(s: State) {
    s.mem.tokens > 0 || Count(s.threads, Writing) > 0 || Count(s.threads, Looking) > 0
  }

  ghost predicate NoLostWakeUp(s: State) {
    !s.mem.word.locked && Count(s.threads, Promised) > 0 ==> WakeUpDue(s)
  }

  /** Every value from which `s - 2` is computed still counts this thread, and `try_lock` tries unlocked values only. */
  predicate LocalOk(pc: Pc) {
    (pc.Loop? ==> pc.s.waiters >= 1) && (pc.TryCas? ==> !pc.s.locked)
  }

  ghost predicate LocalsOk(s: State) {
    forall t :: t in s.threads ==> LocalOk(s.threads[t])
  }

  ghost predicate HandlersOk(s: State) {
    forall t: Tid :: t in s.threads ==>
      && s.begun[t] == s.handled[t] + One(InFlight(s.threads[t]))
      && s.taken[t] == s.granted[t] + One(Delivering(s.threads[t]))
  }

  ghost predicate Inv(s: State) {
    |s.threads| < TWO31 && Accounting(s) && NoLostWakeUp(s) && LocalsOk(s) && HandlersOk(s)
  }

  // ----- one instruction, seen from the thread that executes it

  /** The word still counts exactly after a thread moved from `pc` to `r.0` and left `r.1` in memory. */
  ghost predicate Accounts(pc: Pc, r: (Pc, Shared), reg: nat, own: nat) {
    var reg', own' := reg - One(Registered(pc)) + One(Registered(r.0)), own - One(Owns(pc)) + One(Owns(r.0));
    reg' >= 0 && r.1.word == LockWord(reg', own' == 1) && 0 <= own' <= 1 && LocalOk(r.0)
  }

  /** What the executing thread may assume about the counts. */
  ghost predicate Counted(pc: Pc, m: Shared, reg: nat, own: nat) {
    && m.word == LockWord(reg, own == 1) && own <= 1
    && (if Registered(pc) then 1 <= reg < TWO31 else reg + 1 < TWO31)
    && (Owns(pc) ==> own == 1)
    && LocalOk(pc)
  }

  lemma SpinAccounts(pc: Pc, m: Shared, c: Choice, reg: nat, own: nat)
    requires Counted(pc, m, reg, own) && InSpin(pc)
    ensures Accounts(pc, ActSpin(pc, m, c), reg, own)
  {
  }

  lemma WaitAccounts(pc: Pc, m: Shared, c: Choice, reg: nat, own: nat)
    requires Counted(pc, m, reg, own) && InWait(pc)
    ensures Accounts(pc, ActWait(pc, m, c), reg, own)
  {
  }

  lemma TryAccounts(pc: Pc, m: Shared, c: Choice, reg: nat, own: nat)
    requires Counted(pc, m, reg, own) && InTry(pc)
    ensures Accounts(pc, ActTry(pc, m, c), reg, own)
  {
  }

  lemma AsyncAccounts(pc: Pc, m: Shared, x: bool, c: Choice, reg: nat, own: nat)
    requires Counted(pc, m, reg, own)
    ensures Accounts(pc, ActAsync(pc, m, x, c), reg, own)
  {
  }

  lemma ActAccounts(pc: Pc, m: Shared, x: bool, c: Choice, reg: nat, own: nat)
    requires Counted(pc, m, reg, own)
    ensures Accounts(pc, Act(pc, m, x, c), reg, own)
  {
    if pc.Idle? {
    } else if InSpin(pc) {
      SpinAccounts(pc, m, c, reg, own);
    } else if InWait(pc) {
      WaitAccounts(pc, m, c, reg, own);
    } else if InTry(pc) {
      TryAccounts(pc, m, c, reg, own);
    } else {
      AsyncAccounts(pc, m, x, c, reg, own);
    }
  }

  /** No wake-up is lost, in terms of the counts. */
  ghost predicate Due(m: Shared, promised: int, writing: int, looking: int) {
    !m.word.locked && promised > 0 ==> m.tokens > 0 || writing > 0 || looking > 0
  }

  ghost predicate StillDue(pc: Pc, r: (Pc, Shared), promised: int, writing: int, looking: int) {
    Due(r.1, promised - One(Promised(pc)) + One(Promised(r.0)),
        writing - One(Writing(pc)) + One(Writing(r.0)), looking - One(Looking(pc)) + One(Looking(r.0)))
  }

  /** What the executing thread may assume about the wake-ups. */
  ghost predicate Known(pc: Pc, m: Shared, promised: nat, writing: nat, looking: nat) {
    && (m.word.waiters == 0 && !Registered(pc) ==> promised == 0)
    && (!m.word.locked ==> !Owns(pc))
    && Due(m, promised, writing, looking)
    && (Looking(pc) ==> looking > 0)
    && (Writing(pc) ==> writing > 0)
  }

  lemma WaitKeepsDue(pc: Pc, m: Shared, c: Choice, promised: nat, writing: nat, looking: nat)
    requires Known(pc, m, promised, writing, looking) && InWait(pc)
    ensures StillDue(pc, ActWait(pc, m, c), promised, writing, looking)
  {
  }

  lemma TryKeepsDue(pc: Pc, m: Shared, c: Choice, promised: nat, writing: nat, looking: nat)
    requires Known(pc, m, promised, writing, looking) && InTry(pc)
    ensures StillDue(pc, ActTry(pc, m, c), promised, writing, looking)
  {
  }

  lemma AsyncKeepsDue(pc: Pc, m: Shared, x: bool, c: Choice, promised: nat, writing: nat, looking: nat)
    requires Known(pc, m, promised, writing, looking)
    requires !pc.Idle? && !InSpin(pc) && !InWait(pc) && !InTry(pc)
    ensures StillDue(pc, ActAsync(pc, m, x, c), promised, writing, looking)
  {
  }

  lemma ActKeepsDue(pc: Pc, m: Shared, x: bool, c: Choice, promised: nat, writing: nat, looking: nat)
    requires Known(pc, m, promised, writing, looking)
    ensures StillDue(pc, Act(pc, m, x, c), promised, writing, looking)
  {
    if InWait(pc) {
      WaitKeepsDue(pc, m, c, promised, writing, looking);
    } else if InTry(pc) {
      TryKeepsDue(pc, m, c, promised, writing, looking);
    } else if !InSpin(pc) && !pc.Idle? {
      AsyncKeepsDue(pc, m, x, c, promised, writing, looking);
    }
  }

  /** How the operation's phase changes with the instruction, in terms of the history it records. */
  predicate Delivers(pc: Pc, pc': Pc) {
    && One(InFlight(pc')) == One(InFlight(pc)) - One(pc.AsyncHandler?) + One(!InFlight(pc) && InFlight(pc'))
    && One(Delivering(pc'))
       == One(Delivering(pc)) - One(pc.AsyncHandler? && pc.owned) + One(pc.TryCas? && Delivering(pc'))
  }

  lemma TryDelivers(pc: Pc, m: Shared, c: Choice)
    requires InTry(pc)
    ensures Delivers(pc, ActTry(pc, m, c).0)
  {
  }

  lemma AsyncDelivers(pc: Pc, m: Shared, x: bool, c: Choice)
    requires !pc.Idle? && !InSpin(pc) && !InWait(pc) && !InTry(pc)
    ensures Delivers(pc, ActAsync(pc, m, x, c).0)
  {
  }

  /** No part of an asynchronous operation. */
  predicate Synchronous(pc: Pc) {
    !InFlight(pc) && !Delivering(pc)
  }

  lemma SpinStaysSynchronous(pc: Pc, m: Shared, c: Choice)
    requires InSpin(pc)
    ensures Synchronous(pc) && Synchronous(ActSpin(pc, m, c).0)
  {
  }

  lemma WaitStaysSynchronous(pc: Pc, m: Shared, c: Choice)
    requires InWait(pc)
    ensures Synchronous(pc) && Synchronous(ActWait(pc, m, c).0)
  {
  }

  lemma ActDelivers(pc: Pc, m: Shared, x: bool, c: Choice)
    ensures Delivers(pc, Act(pc, m, x, c).0)
  {
    if pc.Idle? {
    } else if InSpin(pc) {
      SpinStaysSynchronous(pc, m, c);
    } else if InWait(pc) {
      WaitStaysSynchronous(pc, m, c);
    } else if InTry(pc) {
      TryDelivers(pc, m, c);
    } else {
      AsyncDelivers(pc, m, x, c);
    }
  }

  // ----- the whole machine

  lemma Counts(m: map<Tid, Pc>, t: Tid, pc: Pc)
    requires t in m
    ensures |m[t := pc]| == |m|
    ensures Count(m[t := pc], Registered) == Count(m, Registered) - One(Registered(m[t])) + One(Registered(pc))
    ensures Count(m[t := pc], Owns) == Count(m, Owns) - One(Owns(m[t])) + One(Owns(pc))
    ensures Count(m[t := pc], Promised) == Count(m, Promised) - One(Promised(m[t])) + One(Promised(pc))
    ensures Count(m[t := pc], Writing) == Count(m, Writing) - One(Writing(m[t])) + One(Writing(pc))
    ensures Count(m[t := pc], Looking) == Count(m, Looking) - One(Looking(m[t])) + One(Looking(pc))
  {
    CountUpdate(m, t, pc, Registered);
    CountUpdate(m, t, pc, Owns);
    CountUpdate(m, t, pc, Promised);
    CountUpdate(m, t, pc, Writing);
    CountUpdate(m, t, pc, Looking);
  }

  lemma PromisedAreRegistered(m: map<Tid, Pc>)
    ensures Count(m, Promised) <= Count(m, Registered)
  {
    SubsetSize(Where(m, Promised), Where(m, Registered));
  }

  /** What the counts say about one thread. */
  lemma Bounds(m: map<Tid, Pc>, t: Tid)
    requires t in m
    ensures Count(m, Registered) <= |m|
    ensures Registered(m[t]) ==> Count(m, Registered) >= 1
    ensures !Registered(m[t]) ==> Count(m, Registered) < |m|
    ensures Owns(m[t]) ==> Count(m, Owns) >= 1
    ensures Looking(m[t]) ==> Count(m, Looking) >= 1
    ensures Writing(m[t]) ==> Count(m, Writing) >= 1
  {
    CountAtMost(m, Registered);
    if Registered(m[t]) {
      CountHas(m, t, Registered);
    } else {
      CountUpdate(m, t, Drain(Untimed), Registered);
      CountAtMost(m[t := Drain(Untimed)], Registered);
    }
    if Owns(m[t]) { CountHas(m, t, Owns); }
    if Looking(m[t]) { CountHas(m, t, Looking); }
    if Writing(m[t]) { CountHas(m, t, Writing); }
  }

  lemma MovedKeepsAccounting(s: State, t: Tid, r: (Pc, Shared))
    requires Inv(s) && t in s.threads
    requires Accounts(s.threads[t], r, Count(s.threads, Registered), Count(s.threads, Owns))
    ensures |s.threads[t := r.0]| < TWO31 && Accounting(Moved(s, t, r.0, r.1)) && LocalsOk(Moved(s, t, r.0, r.1))
  {
    Counts(s.threads, t, r.0);
  }

  lemma MovedKeepsWakeUps(s: State, t: Tid, r: (Pc, Shared))
    requires Inv(s) && t in s.threads
    requires StillDue(s.threads[t], r, Count(s.threads, Promised), Count(s.threads, Writing), Count(s.threads, Looking))
    ensures NoLostWakeUp(Moved(s, t, r.0, r.1))
  {
    Counts(s.threads, t, r.0);
  }

  lemma MovedKeepsHandlers(s: State, t: Tid, r: (Pc, Shared))
    requires Inv(s) && t in s.threads && Delivers(s.threads[t], r.0)
    ensures HandlersOk(Moved(s, t, r.0, r.1))
  {
  }

  lemma ThreadMayAssume(s: State, t: Tid)
    requires Inv(s) && t in s.threads
    ensures Counted(s.threads[t], s.mem, Count(s.threads, Registered), Count(s.threads, Owns))
    ensures Known(s.threads[t], s.mem,
                  Count(s.threads, Promised), Count(s.threads, Writing), Count(s.threads, Looking))
  {
    Bounds(s.threads, t);
    PromisedAreRegistered(s.threads);
  }

  lemma StepKeepsInv(s: State, e: Event)
    requires Inv(s)
    ensures Inv(Step(s, e))
  {
    if e.t in s.threads && e.Do? {
      var pc, x := s.threads[e.t], e.t in s.cancelled;
      ThreadMayAssume(s, e.t);
      ActAccounts(pc, s.mem, x, e.c, Count(s.threads, Registered), Count(s.threads, Owns));
      MovedKeepsAccounting(s, e.t, Act(pc, s.mem, x, e.c));
      ActKeepsDue(pc, s.mem, x, e.c,
                  Count(s.threads, Promised), Count(s.threads, Writing), Count(s.threads, Looking));
      MovedKeepsWakeUps(s, e.t, Act(pc, s.mem, x, e.c));
      ActDelivers(pc, s.mem, x, e.c);
      MovedKeepsHandlers(s, e.t, Act(pc, s.mem, x, e.c));
    }
  }

  // ----- every run

  lemma ReachableInv(threads: set<Tid>, es: seq<Event>)
    requires |threads| < TWO31
    ensures Inv(Run(Step, Init(threads), es))
  {
    var s0 := Init(threads);
    assert s0.threads.Keys == threads;
    CountZero(s0.threads, Registered);
    CountZero(s0.threads, Owns);
    CountZero(s0.threads, Promised);
    forall x, e | Inv(x) ensures Inv(Step(x, e)) { StepKeepsInv(x, e); }
    AlwaysInvariant(Step, Inv, s0, es);
  }

  function Users(s: State): set<Tid> {
    s.threads.Keys
  }

  lemma SameThreads(s: State, es: seq<Event>)
    ensures Users(Run(Step, s, es)) == Users(s)
  {
    forall x: State, e ensures Users(Step(x, e)) == Users(x) {}
    Unchanged(Step, Users, s, es);
  }

  /** An asynchronous operation registers while the lock is held, or while a wake-up is due anyway. */
  ghost predicate RegistersInTime(s: State, e: Event) {
    e.Do? && e.t in s.threads && s.threads[e.t].AsyncRegister? ==> s.mem.word.locked || WakeUpDue(s)
  }

  /** Whenever the lock is free, a wake-up is due to every synchronous waiter, to every asynchronous one that
      registered while the lock was held, and to every other registered one, too, if since the lock was last
      held no operation registered too late: a token is in the eventfd, an unlocker is about to write one, or
      a registered waiter is about to look at the word. */
  lemma NeverLosesWakeUp(threads: set<Tid>, before: seq<Event>, since: seq<Event>, waiter: Tid)
    requires |threads| < TWO31 && waiter in threads
    ensures var s0 := Run(Step, Init(threads), before);
            var s := Run(Step, s0, since);
            waiter in s.threads && (
            && !s.mem.word.locked && Registered(s.threads[waiter])
            && (Promised(s.threads[waiter])
                || ((s0.mem.word.locked || before == []) && Always(Step, RegistersInTime, s0, since))) ==>
              || s.mem.tokens > 0
              || exists t :: t in s.threads && (Writing(s.threads[t]) || Looking(s.threads[t])))
  {
    var s0 := Run(Step, Init(threads), before);
    var s := Run(Step, s0, since);
    ReachableInv(threads, before);
    RunConcat(Step, Init(threads), before, since);
    ReachableInv(threads, before + since);
    SameThreads(Init(threads), before + since);
    if s0.mem.word.locked || before == [] {
      assert EveryoneServed(s0) by { NobodyAtStart(threads); }
      EveryoneServedExactly(s0, since);
    }
    if Registered(s.threads[waiter]) { CountHas(s.threads, waiter, Registered); }
    if Promised(s.threads[waiter]) { CountHas(s.threads, waiter, Promised); }
    if WakeUpDue(s) { WakeUpWitness(s); }
  }

  lemma NobodyAtStart(threads: set<Tid>)
    ensures Count(Init(threads).threads, Registered) == 0
  {
    CountZero(Init(threads).threads, Registered);
  }

  lemma WakeUpWitness(s: State)
    requires WakeUpDue(s)
    ensures s.mem.tokens > 0 || exists t :: t in s.threads && (Writing(s.threads[t]) || Looking(s.threads[t]))
  {
    if s.mem.tokens == 0 {
      var t: Tid;
      if Count(s.threads, Writing) > 0 {
        t := CountWitness(s.threads, Writing);
      } else {
        t := CountWitness(s.threads, Looking);
      }
    }
  }

  lemma MutualExclusion(threads: set<Tid>, es: seq<Event>, a: Tid, b: Tid)
    requires |threads| < TWO31
    ensures var s := Run(Step, Init(threads), es);
            && s.mem.word.Bits() == 2 * Count(s.threads, Registered) + Count(s.threads, Owns)
            && (a in s.threads && Owns(s.threads[a]) && b in s.threads && Owns(s.threads[b]) ==> a == b)
  {
    var s := Run(Step, Init(threads), es);
    ReachableInv(threads, es);
    if a in s.threads && Owns(s.threads[a]) && b in s.threads && Owns(s.threads[b]) {
      CountUnique(s.threads, Owns, a, b);
    }
  }

  /** Every asynchronous operation runs its handler exactly once, and with the lock exactly when it took it. */
  lemma HandlersRunOnce(threads: set<Tid>, es: seq<Event>, t: Tid)
    requires |threads| < TWO31 && t in threads
    ensures var s := Run(Step, Init(threads), es);
            && t in s.threads
            && s.begun[t] == s.handled[t] + One(InFlight(s.threads[t]))
            && s.taken[t] == s.granted[t] + One(Delivering(s.threads[t]))
            && (s.threads[t] == AsyncHandler(true) ==> Owns(s.threads[t]) && s.mem.word.locked)
  {
    var s := Run(Step, Init(threads), es);
    ReachableInv(threads, es);
    SameThreads(Init(threads), es);
    if s.threads[t] == AsyncHandler(true) {
      CountHas(s.threads, t, Owns);
    }
  }

  /** Cancelled before its wait completed: the handler will run with an error. */
  predicate Doomed(pc: Pc, cancelled: bool) {
    || ((pc.AsyncWait? || pc.AsyncCheck?) && cancelled)
    || ((pc.AsyncLeave? || pc.AsyncHandler?) && !pc.owned)
  }

  lemma DoomedStep(s: State, e: Event, t: Tid)
    requires t in s.threads && Doomed(s.threads[t], t in s.cancelled)
    ensures var s' := Step(s, e);
            t in s'.threads && s'.handled[t] >= s.handled[t] && s'.granted[t] == s.granted[t] && (
            || s'.handled[t] > s.handled[t]
            || (Doomed(s'.threads[t], t in s'.cancelled) && s'.taken[t] == s.taken[t]))
  {
  }

  /** An operation cancelled while it waits never takes the lock, in any run, before its handler has run. */
  lemma {:induction false} CancelledNeverTakesLock(s: State, es: seq<Event>, t: Tid)
    requires t in s.threads && Doomed(s.threads[t], t in s.cancelled)
    requires Run(Step, s, es).handled[t] == s.handled[t]
    ensures Run(Step, s, es).taken[t] == s.taken[t]
    decreases |es|
  {
    if es != [] {
      DoomedStep(s, es[0], t);
      HandledGrows(Step(s, es[0]), es[1..], t);
      CancelledNeverTakesLock(Step(s, es[0]), es[1..], t);
    }
  }

  lemma {:induction false} HandledGrows(s: State, es: seq<Event>, t: Tid)
    ensures Run(Step, s, es).handled[t] >= s.handled[t]
    decreases |es|
  {
    if es != [] {
      HandledGrows(Step(s, es[0]), es[1..], t);
    }
  }

  // ----- a free lock can be taken without anyone else's help

  /** A synchronous waiter inside the registered wait loop. */
  predicate Waiting(pc: Pc) {
    pc.Loop? || pc.Drain? || pc.Reload?
  }

  predicate Ordinary(e: Event) {
    e.Do? && e.c.Go?
  }

  function Distance(pc: Pc, word: LockWord): nat {
    if pc.Drain? then 3 else if pc.Reload? then 2 else if pc.Loop? && pc.s != word then 1 else 0
  }

  lemma {:induction false} LookerTakesLock(s: State, w: Tid) returns (es: seq<Event>)
    requires w in s.threads && Looking(s.threads[w]) && !s.mem.word.locked
    ensures Only(Ordinary, es) && |es| <= 1 + Distance(s.threads[w], s.mem.word)
    ensures w in Run(Step, s, es).threads && Run(Step, s, es).threads[w] == AcquiredDrain
    decreases Distance(s.threads[w], s.mem.word)
  {
    var e := Do(w, Go);
    if s.threads[w].Loop? && s.threads[w].s == s.mem.word {
      es := [e];
      Prepend(Step, s, e, []);
    } else {
      var rest := LookerTakesLock(Step(s, e), w);
      es := [e] + rest;
      Prepend(Step, s, e, rest);
    }
  }

  lemma PollerLooks(s: State, b: Tid)
    requires b in s.threads && s.threads[b].Loop? && s.threads[b].s.locked && s.mem.tokens > 0
    ensures var s' := Step(s, Do(b, Go)); s'.threads == s.threads[b := Drain(s.threads[b].mode)] && s'.mem == s.mem
  {
  }

  lemma UnlockerWrites(s: State, n: Tid)
    requires n in s.threads && s.threads[n].UnlockWrite? && s.mem.tokens == 0
    ensures var s' := Step(s, Do(n, Go)); s'.threads == s.threads[n := Idle] && s'.mem == Shared(s.mem.word, 1)
  {
  }

  /** From every reachable state in which the lock is free while `b` is blocked in `poll`, at most six
      ordinary instructions of waiters and of one pending unlocker give the lock to a waiter. */
  lemma FreeLockGetsTaken(s: State, b: Tid) returns (w: Tid, es: seq<Event>)
    requires Inv(s) && b in s.threads && s.threads[b].Loop? && !s.mem.word.locked
    ensures Only(Ordinary, es) && |es| <= 6
    ensures w in s.threads && Waiting(s.threads[w])
    ensures w in Run(Step, s, es).threads && Run(Step, s, es).threads[w] == AcquiredDrain
  {
    CountHas(s.threads, b, Promised);
    if Count(s.threads, Looking) > 0 {
      w := CountWitness(s.threads, Looking);
      es := LookerTakesLock(s, w);
    } else {
      CountZero(s.threads, Looking);
      w := b;
      if s.mem.tokens > 0 {
        es := PollerTakesLock(s, b);
      } else {
        var n := CountWitness(s.threads, Writing);
        UnlockerWrites(s, n);
        var rest := PollerTakesLock(Step(s, Do(n, Go)), b);
        es := [Do(n, Go)] + rest;
        Prepend(Step, s, Do(n, Go), rest);
      }
    }
  }

  lemma PollerTakesLock(s: State, b: Tid) returns (es: seq<Event>)
    requires b in s.threads && s.threads[b].Loop? && s.threads[b].s.locked && s.mem.tokens > 0 && !s.mem.word.locked
    ensures Only(Ordinary, es) && |es| <= 5
    ensures b in Run(Step, s, es).threads && Run(Step, s, es).threads[b] == AcquiredDrain
  {
    PollerLooks(s, b);
    var rest := LookerTakesLock(Step(s, Do(b, Go)), b);
    es := [Do(b, Go)] + rest;
    Prepend(Step, s, Do(b, Go), rest);
  }

  // ----- asynchronous waiters that register too late

  /** Any registered waiter, promised or not, has a wake-up due when the lock is free. */
  ghost predicate EveryoneServed(s: State) {
    !s.mem.word.locked && Count(s.threads, Registered) > 0 ==> WakeUpDue(s)
  }

  /** What the executing thread may assume about the wake-ups when everyone is served. */
  ghost predicate ServedKnown(pc: Pc, m: Shared, writing: nat, looking: nat) {
    && Due(m, m.word.waiters, writing, looking)
    && (Registered(pc) ==> m.word.waiters > 0)
    && (!m.word.locked ==> !Owns(pc))
    && (Looking(pc) ==> looking > 0)
    && (Writing(pc) ==> writing > 0)
  }

  ghost predicate StillServed(pc: Pc, r: (Pc, Shared), reg: int, writing: int, looking: int) {
    Due(r.1, reg - One(Registered(pc)) + One(Registered(r.0)),
        writing - One(Writing(pc)) + One(Writing(r.0)), looking - One(Looking(pc)) + One(Looking(r.0)))
  }

  lemma WaitServes(pc: Pc, m: Shared, c: Choice, writing: nat, looking: nat)
    requires ServedKnown(pc, m, writing, looking) && InWait(pc)
    ensures StillServed(pc, ActWait(pc, m, c), m.word.waiters, writing, looking)
  {
  }

  lemma TryServes(pc: Pc, m: Shared, c: Choice, writing: nat, looking: nat)
    requires ServedKnown(pc, m, writing, looking) && InTry(pc)
    ensures StillServed(pc, ActTry(pc, m, c), m.word.waiters, writing, looking)
  {
  }

  lemma AsyncServes(pc: Pc, m: Shared, x: bool, c: Choice, writing: nat, looking: nat)
    requires ServedKnown(pc, m, writing, looking)
    requires !pc.Idle? && !InSpin(pc) && !InWait(pc) && !InTry(pc)
    ensures StillServed(pc, ActAsync(pc, m, x, c), m.word.waiters, writing, looking) <==>
            (pc.AsyncRegister? ==> m.word.locked || m.tokens > 0 || writing > 0 || looking > 0)
  {
  }

  lemma ActServes(pc: Pc, m: Shared, x: bool, c: Choice, writing: nat, looking: nat)
    requires ServedKnown(pc, m, writing, looking)
    ensures StillServed(pc, Act(pc, m, x, c), m.word.waiters, writing, looking) <==>
            (pc.AsyncRegister? ==> m.word.locked || m.tokens > 0 || writing > 0 || looking > 0)
  {
    if InWait(pc) {
      WaitServes(pc, m, c, writing, looking);
    } else if InTry(pc) {
      TryServes(pc, m, c, writing, looking);
    } else if !InSpin(pc) && !pc.Idle? {
      AsyncServes(pc, m, x, c, writing, looking);
    }
  }

  /** While everyone is served, the one step after which someone is not is that of an operation which
      registers on a free word with no wake-up due. */
  lemma StepServesExactly(s: State, e: Event)
    requires Inv(s) && EveryoneServed(s)
    ensures EveryoneServed(Step(s, e)) <==> RegistersInTime(s, e)
  {
    if e.t in s.threads && e.Do? {
      var pc, x := s.threads[e.t], e.t in s.cancelled;
      ThreadMayAssume(s, e.t);
      ActServes(pc, s.mem, x, e.c, Count(s.threads, Writing), Count(s.threads, Looking));
      Counts(s.threads, e.t, Act(pc, s.mem, x, e.c).0);
    }
  }

  ghost predicate ServedAfter(s: State, e: Event) {
    EveryoneServed(Step(s, e))
  }

  /** From a state in which everyone is served, and in particular from any in which the lock is held, everyone
      stays served throughout a run exactly if no operation of the run registers too late. */
  lemma EveryoneServedExactly(s: State, es: seq<Event>)
    requires Inv(s) && EveryoneServed(s)
    ensures Always(Step, ServedAfter, s, es) <==> Always(Step, RegistersInTime, s, es)
    ensures Always(Step, RegistersInTime, s, es) ==> EveryoneServed(Run(Step, s, es))
  {
    forall x, e | Inv(x) ensures Inv(Step(x, e)) { StepKeepsInv(x, e); }
    forall x, e | Inv(x) && EveryoneServed(x) ensures EveryoneServed(Step(x, e)) <==> RegistersInTime(x, e) {
      StepServesExactly(x, e);
    }
    AlwaysAnything(Step, s, es);
    KeptExactly(Step, Anything, Inv, EveryoneServed, RegistersInTime, ServedAfter, s, es);
  }

  lemma AsyncRegisters(s: State, t: Tid, c: Choice)
    requires t in s.threads && s.threads[t].AsyncRegister?
    ensures Step(s, Do(t, c)).threads == s.threads[t := AsyncWait(s.mem.word.locked)]
    ensures Step(s, Do(t, c)).mem == Shared(s.mem.word.AddWaiter(), s.mem.tokens)
  {
  }

  /** Thread 0 locks; operation 1 fails its `try_lock`; 0 unlocks and sees no waiter; 1 registers. The lock
      is then free, operation 1 is registered, and no ordinary instruction changes the state again. */
  lemma AsyncWaiterCanBeStranded() returns (run: seq<Event>)
    ensures var s := Run(Step, Init({0, 1}), run);
            && s.mem == Shared(FREE.AddWaiter(), 0) && Two(s, Idle, AsyncWait(false))
            && forall es :: Only(Ordinary, es) ==> Run(Step, s, es) == s
  {
    var s;
    s, run := StrandingRun();
    forall es | Only(Ordinary, es) ensures Run(Step, s, es) == s { StaysPut(s, es); }
  }

  /** The program counters of the two parties. */
  predicate Two(s: State, zero: Pc, one: Pc) {
    s.threads.Keys == {0, 1} && s.threads[0] == zero && s.threads[1] == one
  }

  lemma StrandingRun() returns (s: State, run: seq<Event>)
    ensures s == Run(Step, Init({0, 1}), run)
    ensures s.mem == Shared(FREE.AddWaiter(), 0) && Two(s, Idle, AsyncWait(false))
  {
    var s3 := StrandingStart();
    s := StrandingEnd(s3);
    run := [Do(0, Call(Lock)), Do(0, Go), Do(1, Call(AsyncAcquire)), Do(1, Go), Do(0, Go), Do(1, Go)];
    Six(Step, Init({0, 1}), Do(0, Call(Lock)), Do(0, Go), Do(1, Call(AsyncAcquire)), Do(1, Go), Do(0, Go), Do(1, Go));
  }

  lemma StrandingStart() returns (s: State)
    ensures s == Step(Step(Step(Init({0, 1}), Do(0, Call(Lock))), Do(0, Go)), Do(1, Call(AsyncAcquire)))
    ensures s.mem == Shared(FREE.Locked(), 0) && Two(s, Holding, TryLoad(AsyncStart))
  {
    var s0 := Init({0, 1});
    Enters(s0, 0, Lock);
    var s1 := Step(s0, Do(0, Call(Lock)));
    FastLocks(s1, 0);
    var s2 := Step(s1, Do(0, Go));
    Enters(s2, 1, AsyncAcquire);
    s := Step(s2, Do(1, Call(AsyncAcquire)));
  }

  lemma StrandingEnd(s3: State) returns (s: State)
    requires s3.mem == Shared(FREE.Locked(), 0) && Two(s3, Holding, TryLoad(AsyncStart))
    ensures s == Step(Step(Step(s3, Do(1, Go)), Do(0, Go)), Do(1, Go))
    ensures s.mem == Shared(FREE.AddWaiter(), 0) && Two(s, Idle, AsyncWait(false))
  {
    TryRefused(s3, 1);
    var s4 := Step(s3, Do(1, Go));
    UnlocksUnnoticed(s4, 0);
    var s5 := Step(s4, Do(0, Go));
    AsyncRegisters(s5, 1, Go);
    s := Step(s5, Do(1, Go));
  }

  lemma Enters(s: State, t: Tid, op: Operation)
    requires t in s.threads && s.threads[t].Idle?
    ensures var s' := Step(s, Do(t, Call(op))); s'.mem == s.mem && s'.threads == s.threads[t := Enter(op)]
  {
  }

  lemma FastLocks(s: State, t: Tid)
    requires t in s.threads && s.threads[t].FastCas? && s.mem.word == FREE
    ensures var s' := Step(s, Do(t, Go));
            s'.mem == s.mem.(word := FREE.Locked()) && s'.threads == s.threads[t := Holding]
  {
  }

  lemma TryRefused(s: State, t: Tid)
    requires t in s.threads && s.threads[t] == TryLoad(AsyncStart) && s.mem.word.locked
    ensures var s' := Step(s, Do(t, Go)); s'.mem == s.mem && s'.threads == s.threads[t := AsyncRegister]
  {
  }

  lemma UnlocksUnnoticed(s: State, t: Tid)
    requires t in s.threads && s.threads[t].Holding? && s.mem.word.waiters == 0
    ensures var s' := Step(s, Do(t, Go));
            s'.mem == s.mem.(word := s.mem.word.Unlocked()) && s'.threads == s.threads[t := Idle]
  {
  }

  lemma {:induction false} StaysPut(s: State, es: seq<Event>)
    requires Only(Ordinary, es)
    requires s.mem == Shared(FREE.AddWaiter(), 0) && Two(s, Idle, AsyncWait(false))
    ensures Run(Step, s, es) == s
    decreases |es|
  {
    if es != [] {
      assert es[0] in es;
      assert Step(s, es[0]) == s;
      StaysPut(s, es[1..]);
    }
  }
}
