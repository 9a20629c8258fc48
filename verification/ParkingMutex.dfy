/**
 The parking mutex in its four variants: the lock word of `LockWords` over a futex.
 An unlock that sees waiters wakes one sleeper; a timed waiter that gives up takes its
 registration back by a compare-exchange on a locked word.

 One event executes one atomic instruction of one thread. An event that is not
 enabled leaves the state alone. A sleeper may return for no reason at any time.
 */
module ParkingMutex {
  import opened AbstractLock
  import opened LockWords
  import opened Runs
  import opened ThreadMaps
  import opened Words

  /** Which of the four classes: with or without a spin phase, with or without timed waits. */
  datatype Variant = Variant(backoff: bool, timed: bool)

  datatype Pc =
    | Idle
    | FastCas
    | Spin(expected: LockWord)
    | TryCas(until: bool)                          // try_lock, or the start of try_lock_until
    | Register(timed: bool)
    | Reload(timed: bool)
    | Loop(timed: bool, expected: LockWord)        // CAS if expected is unlocked, futex wait otherwise
    | Parked(timed: bool, expected: LockWord)
    | GiveUpLoad                                   // the wait timed out
    | GiveUp(expected: LockWord)
    | Holding
    | Notify                                       // atomic_notify_one of unlock

  datatype Operation = Lock | TryLock | TryLockUntil

  /** `Flake` is a weak CAS that fails or a wait that returns for no reason; `Expire` ends a spin
      phase or times a wait out; `Wake` names the sleeper the kernel picks for a notify. */
  datatype Choice = Go | Flake | Expire | Call(op: Operation) | Wake(w: Tid)
  datatype Event = Do(t: Tid, c: Choice)

  /** `log` is the history of acquisitions and releases. */
  datatype State = State(variant: Variant, word: LockWord, threads: map<Tid, Pc>, log: seq<Action>)

  function Init(variant: Variant, threads: set<Tid>): State {
    State(variant, FREE, map t | t in threads :: Idle, [])
  }

  function Enter(v: Variant, op: Operation): Pc {
    match op
    case Lock => FastCas
    case TryLock => TryCas(false)
    case TryLockUntil => if v.timed then TryCas(true) else Idle
  }

  /** The fast paths, the spin phase, and the `fetch_and` of `unlock`. */
  function ActFast(v: Variant, pc: Pc, word: LockWord, c: Choice): (Pc, LockWord) {
    match pc
    case FastCas =>
      if c.Go? && word == FREE then (Holding, word.Locked())
      else (if v.backoff then Spin(word) else Register(false), word)
    case Spin(expected) =>
      if expected.locked then (if c.Expire? then Register(false) else pc, word)
      else if c.Go? && word == expected then (Holding, expected.Locked())
      else (Spin(word), word)
    case TryCas(until) =>
      if word == FREE then (Holding, word.Locked()) else (if until then Register(true) else Idle, word)
    case Holding =>
      if c.Go? then (if word.waiters > 0 then Notify else Idle, word.Unlocked()) else (pc, word)
    case _ => (pc, word)
  }

  /** The registered wait loop of `lock_slow` and `lock_slow_until`, with its timeout path. */
  function ActWait(pc: Pc, word: LockWord, c: Choice): (Pc, LockWord) {
    match pc
    case Register(timed) => (Reload(timed), word.AddWaiter())
    case Reload(timed) => (Loop(timed, word), word)
    case Loop(timed, expected) =>
      if !expected.locked then
        if c.Go? && word == expected then (Holding, expected.RemoveWaiter().Locked())
        else (Loop(timed, word), word)
      else if c.Expire? && timed then (GiveUpLoad, word)
      else if c.Go? && word == expected then (Parked(timed, expected), word)
      else if c.Flake? || (c.Go? && word != expected) then (Reload(timed), word)
      else (pc, word)
    case Parked(timed, expected) =>
      if c.Expire? && timed then (GiveUpLoad, word)
      else if c.Flake? then (Loop(timed, expected), word)
      else (pc, word)
    case GiveUpLoad => (GiveUp(word), word)
    case GiveUp(expected) =>
      if c.Go? && word == expected then
        if expected.locked then (Idle, expected.RemoveWaiter()) else (Holding, expected.RemoveWaiter().Locked())
      else (GiveUp(word), word)
    case _ => (pc, word)
  }

  function Act(v: Variant, pc: Pc, word: LockWord, c: Choice): (Pc, LockWord) {
    if pc.Idle? then (if c.Call? then Enter(v, c.op) else Idle, word)
    else if Registers(pc) then ActWait(pc, word, c)
    else ActFast(v, pc, word, c)
  }

  /** The state after thread `t` moved to `pc` and left `word` in memory. */
  function Moved(s: State, t: Tid, pc: Pc, word: LockWord): State
    requires t in s.threads
  {
    State(s.variant, word, s.threads[t := pc],
          if Holds(pc) && !Holds(s.threads[t]) then s.log + [Acquire(t)]
          else if !Holds(pc) && Holds(s.threads[t]) then s.log + [Release(t)]
          else s.log)
  }

  /** A sleeper that was woken goes back to comparing the word. */
  function Woken(pc: Pc): Pc {
    if pc.Parked? then Loop(pc.timed, pc.expected) else pc
  }

  predicate NoSleepers(m: map<Tid, Pc>) {
    forall t :: t in m ==> !m[t].Parked?
  }

  /** `FUTEX_WAKE` of one sleeper: it wakes one exactly if there is one. */
  function NotifyOne(s: State, t: Tid, c: Choice): State
    requires t in s.threads
  {
    if c.Wake? && c.w in s.threads && s.threads[c.w].Parked? then
      s.(threads := s.threads[t := Idle][c.w := Woken(s.threads[c.w])])
    else if NoSleepers(s.threads) then s.(threads := s.threads[t := Idle])
    else s
  }

  function Step(s: State, e: Event): State {
    if e.t !in s.threads then s
    else if s.threads[e.t].Notify? then NotifyOne(s, e.t, e.c)
    else
      var (pc, word) := Act(s.variant, s.threads[e.t], s.word, e.c);
      Moved(s, e.t, pc, word)
  }

  // ----- classes of program counters

  /** In the part of the wait loop that starts with the registration. */
  predicate Registers(pc: Pc) {
    pc.Register? || Registered(pc)
  }

  /** Counted in the upper 31 bits. */
  predicate Registered(pc: Pc) {
    Awake(pc) || pc.Parked?
  }

  predicate Awake(pc: Pc) {
    pc.Reload? || pc.Loop? || pc.GiveUpLoad? || pc.GiveUp?
  }

  predicate Asleep(pc: Pc) {
    pc.Parked?
  }

  predicate Holds(pc: Pc) {
    pc.Holding?
  }

  predicate Notifying(pc: Pc) {
    pc.Notify?
  }

  // ----- the invariant

  /** The word is exactly the registrations and the lock bit. */
  ghost predicate Accounting(s: State) {
    && s.word == LockWord(Count(s.threads, Registered), Count(s.threads, Holds) == 1)
    && Count(s.threads, Holds) <= 1
  }

  ghost predicate NobodyStranded(s: State) {
    !s.word.locked && Count(s.threads, Registered) > 0 ==>
      Count(s.threads, Notifying) > 0 || Count(s.threads, Awake) > 0
  }

  /** A registered thread's `expected` counts the thread itself; sleepers compared a locked word. */
  predicate LocalOk(pc: Pc) {
    && (pc.Loop? || pc.Parked? || pc.GiveUp? ==> pc.expected.waiters >= 1)
    && (pc.Parked? ==> pc.expected.locked)
  }

  ghost predicate LocalsOk(s: State) {
    forall t :: t in s.threads ==> LocalOk(s.threads[t])
  }

  /** The history is one an abstract lock allows, and it agrees on the owner. */
  ghost predicate LogOk(s: State) {
    match Replay(s.log)
    case Free => Count(s.threads, Holds) == 0
    case HeldBy(t) => t in s.threads && Holds(s.threads[t])
    case Broken => false
  }

  ghost predicate Inv(s: State) {
    |s.threads| < TWO31 && Accounting(s) && NobodyStranded(s) && LocalsOk(s) && LogOk(s)
  }

  // ----- one instruction, seen from the thread that executes it

  ghost predicate Counted(pc: Pc, word: LockWord, reg: nat, own: nat) {
    && word == LockWord(reg, own == 1) && own <= 1
    && (if Registered(pc) then 1 <= reg < TWO31 else reg + 1 < TWO31)
    && (Holds(pc) ==> own == 1)
    && LocalOk(pc)
  }

  ghost predicate Accounts(pc: Pc, r: (Pc, LockWord), reg: nat, own: nat) {
    var reg', own' := reg - One(Registered(pc)) + One(Registered(r.0)), own - One(Holds(pc)) + One(Holds(r.0));
    reg' >= 0 && r.1 == LockWord(reg', own' == 1) && 0 <= own' <= 1 && LocalOk(r.0)
  }

  lemma FastAccounts(v: Variant, pc: Pc, word: LockWord, c: Choice, reg: nat, own: nat)
    requires Counted(pc, word, reg, own)
    ensures Accounts(pc, ActFast(v, pc, word, c), reg, own)
  {
  }

  lemma WaitAccounts(pc: Pc, word: LockWord, c: Choice, reg: nat, own: nat)
    requires Counted(pc, word, reg, own) && Registers(pc)
    ensures Accounts(pc, ActWait(pc, word, c), reg, own)
  {
  }

  ghost predicate Due(word: LockWord, reg: int, notifying: int, awake: int) {
    !word.locked && reg > 0 ==> notifying > 0 || awake > 0
  }

  ghost predicate StillDue(pc: Pc, r: (Pc, LockWord), reg: int, notifying: int, awake: int) {
    Due(r.1, reg - One(Registered(pc)) + One(Registered(r.0)),
        notifying - One(Notifying(pc)) + One(Notifying(r.0)), awake - One(Awake(pc)) + One(Awake(r.0)))
  }

  lemma FastKeepsDue(v: Variant, pc: Pc, word: LockWord, c: Choice, notifying: nat, awake: nat)
    requires Due(word, word.waiters, notifying, awake) && (Holds(pc) ==> word.locked)
    requires !Registered(pc) && !pc.Notify?
    ensures StillDue(pc, ActFast(v, pc, word, c), word.waiters, notifying, awake)
  {
  }

  lemma WaitKeepsDue(pc: Pc, word: LockWord, c: Choice, notifying: nat, awake: nat)
    requires Due(word, word.waiters, notifying, awake) && LocalOk(pc) && Registers(pc)
    requires Awake(pc) ==> awake > 0
    ensures StillDue(pc, ActWait(pc, word, c), word.waiters, notifying, awake)
  {
  }

  // ----- the whole machine

  lemma Counts(m: map<Tid, Pc>, t: Tid, pc: Pc)
    requires t in m
    ensures |m[t := pc]| == |m|
    ensures Count(m[t := pc], Registered) == Count(m, Registered) - One(Registered(m[t])) + One(Registered(pc))
    ensures Count(m[t := pc], Holds) == Count(m, Holds) - One(Holds(m[t])) + One(Holds(pc))
    ensures Count(m[t := pc], Notifying) == Count(m, Notifying) - One(Notifying(m[t])) + One(Notifying(pc))
    ensures Count(m[t := pc], Awake) == Count(m, Awake) - One(Awake(m[t])) + One(Awake(pc))
  {
    CountUpdate(m, t, pc, Registered);
    CountUpdate(m, t, pc, Holds);
    CountUpdate(m, t, pc, Notifying);
    CountUpdate(m, t, pc, Awake);
  }

  lemma ThreadMayAssume(s: State, t: Tid)
    requires Inv(s) && t in s.threads
    ensures Counted(s.threads[t], s.word, Count(s.threads, Registered), Count(s.threads, Holds))
    ensures Due(s.word, s.word.waiters, Count(s.threads, Notifying), Count(s.threads, Awake))
    ensures Awake(s.threads[t]) ==> Count(s.threads, Awake) > 0
  {
    CountAtMost(s.threads, Registered);
    if Registered(s.threads[t]) {
      CountHas(s.threads, t, Registered);
    } else {
      CountUpdate(s.threads, t, GiveUpLoad, Registered);
      CountAtMost(s.threads[t := GiveUpLoad], Registered);
    }
    if Holds(s.threads[t]) { CountHas(s.threads, t, Holds); }
    if Awake(s.threads[t]) { CountHas(s.threads, t, Awake); }
  }

  lemma MovedKeepsCounts(s: State, t: Tid, r: (Pc, LockWord))
    requires t in s.threads && |s.threads| < TWO31 && Accounting(s) && LocalsOk(s)
    requires Accounts(s.threads[t], r, Count(s.threads, Registered), Count(s.threads, Holds))
    requires StillDue(s.threads[t], r, s.word.waiters, Count(s.threads, Notifying), Count(s.threads, Awake))
    ensures var s' := Moved(s, t, r.0, r.1);
            |s'.threads| < TWO31 && Accounting(s') && NobodyStranded(s') && LocalsOk(s')
  {
    Counts(s.threads, t, r.0);
  }

  /** Refinement: a step appends the one abstract action it performs, and the abstract lock allows it. */
  lemma MovedKeepsLog(s: State, t: Tid, pc: Pc, word: LockWord)
    requires Inv(s) && t in s.threads
    requires Count(s.threads, Holds) - One(Holds(s.threads[t])) + One(Holds(pc)) <= 1
    ensures LogOk(Moved(s, t, pc, word))
  {
    var m := s.threads;
    CountUpdate(m, t, pc, Holds);
    CountZero(m, Holds);
    if Holds(m[t]) && !Holds(pc) {
      var owner := Replay(s.log).t;
      CountUnique(m, Holds, t, owner);
      ReplayAppend(s.log, Release(t));
    } else if !Holds(m[t]) && Holds(pc) {
      ReplayAppend(s.log, Acquire(t));
    }
  }

  lemma NotifyKeepsInv(s: State, t: Tid, c: Choice)
    requires Inv(s) && t in s.threads && s.threads[t].Notify?
    ensures Inv(NotifyOne(s, t, c))
  {
    var s1 := s.threads[t := Idle];
    Counts(s.threads, t, Idle);
    if c.Wake? && c.w in s.threads && s.threads[c.w].Parked? {
      Counts(s1, c.w, Woken(s.threads[c.w]));
    } else if NoSleepers(s.threads) {
      NobodyAsleep(s.threads);
    }
  }

  lemma NobodyAsleep(m: map<Tid, Pc>)
    requires NoSleepers(m)
    ensures Count(m, Awake) == Count(m, Registered)
  {
    CountZero(m, Asleep);
    assert Where(m, Awake) == Where(m, Registered);
  }

  lemma StepKeepsInv(s: State, e: Event)
    requires Inv(s)
    ensures Inv(Step(s, e))
  {
    if e.t in s.threads {
      var pc, awake, notifying := s.threads[e.t], Count(s.threads, Awake), Count(s.threads, Notifying);
      ThreadMayAssume(s, e.t);
      if pc.Notify? {
        NotifyKeepsInv(s, e.t, e.c);
      } else {
        if !pc.Idle? && Registers(pc) {
          WaitAccounts(pc, s.word, e.c, Count(s.threads, Registered), Count(s.threads, Holds));
          WaitKeepsDue(pc, s.word, e.c, notifying, awake);
        } else if !pc.Idle? {
          FastAccounts(s.variant, pc, s.word, e.c, Count(s.threads, Registered), Count(s.threads, Holds));
          FastKeepsDue(s.variant, pc, s.word, e.c, notifying, awake);
        }
        var r := Act(s.variant, pc, s.word, e.c);
        MovedKeepsCounts(s, e.t, r);
        MovedKeepsLog(s, e.t, r.0, r.1);
      }
    }
  }

  // ----- every run

  lemma ReachableInv(variant: Variant, threads: set<Tid>, es: seq<Event>)
    requires |threads| < TWO31
    ensures Inv(Run(Step, Init(variant, threads), es))
  {
    var s0 := Init(variant, threads);
    assert s0.threads.Keys == threads;
    CountZero(s0.threads, Registered);
    CountZero(s0.threads, Holds);
    forall x, e | Inv(x) ensures Inv(Step(x, e)) { StepKeepsInv(x, e); }
    AlwaysInvariant(Step, Inv, s0, es);
  }

  function Users(s: State): set<Tid> {
    s.threads.Keys
  }

  lemma SameThreads(s: State, es: seq<Event>)
    ensures Users(Run(Step, s, es)) == Users(s)
  {
    forall x: State, e ensures Users(Step(x, e)) == Users(x) {}
    Unchanged(Step, Users, s, es);
  }

  /** Whenever the lock is free and a thread is registered, some registered thread is awake or a notify is coming. */
  lemma NeverStrandsSleepers(variant: Variant, threads: set<Tid>, es: seq<Event>, waiter: Tid)
    requires |threads| < TWO31 && waiter in threads
    ensures var s := Run(Step, Init(variant, threads), es);
            waiter in s.threads && (
            !s.word.locked && Registered(s.threads[waiter]) ==>
              exists t :: t in s.threads && (Notifying(s.threads[t]) || Awake(s.threads[t])))
  {
    var s := Run(Step, Init(variant, threads), es);
    ReachableInv(variant, threads, es);
    SameThreads(Init(variant, threads), es);
    if !s.word.locked && Registered(s.threads[waiter]) {
      CountHas(s.threads, waiter, Registered);
      var t: Tid;
      if Count(s.threads, Notifying) > 0 {
        t := CountWitness(s.threads, Notifying);
      } else {
        t := CountWitness(s.threads, Awake);
      }
    }
  }

  /** Every run is one of an abstract lock: acquisitions and releases alternate, each release by the
      owner; and the word counts the registered threads and the owner. */
  lemma RefinesAbstractLock(variant: Variant, threads: set<Tid>, es: seq<Event>)
    requires |threads| < TWO31
    ensures var s := Run(Step, Init(variant, threads), es);
            && s.word.Bits() == 2 * Count(s.threads, Registered) + Count(s.threads, Holds)
            && (match Replay(s.log)
                case Free => !s.word.locked && forall t :: t in s.threads ==> !Holds(s.threads[t])
                case HeldBy(o) => s.word.locked && forall t :: t in s.threads ==> (Holds(s.threads[t]) <==> t == o)
                case Broken => false)
  {
    var s := Run(Step, Init(variant, threads), es);
    ReachableInv(variant, threads, es);
    CountZero(s.threads, Holds);
    if Replay(s.log).HeldBy? {
      CountHas(s.threads, Replay(s.log).t, Holds);
      forall t | t in s.threads && Holds(s.threads[t]) ensures t == Replay(s.log).t {
        CountUnique(s.threads, Holds, t, Replay(s.log).t);
      }
    }
  }

  /** An abstract action is recorded exactly by the step that flips the lock bit; every other step is a stutter. */
  lemma ActionsFlipTheLockBit(s: State, e: Event)
    requires Inv(s)
    ensures var s' := Step(s, e);
            if s.word.locked == s'.word.locked then s'.log == s.log
            else s'.log == s.log + [if s'.word.locked then Acquire(e.t) else Release(e.t)]
  {
    StepKeepsInv(s, e);
    if e.t in s.threads {
      var m, pc := s.threads, Step(s, e).threads[e.t];
      CountUpdate(m, e.t, pc, Holds);
      if Holds(m[e.t]) { CountHas(m, e.t, Holds); }
      NotifyTouchesNothingElse(s, e);
    }
  }

  lemma NotifyTouchesNothingElse(s: State, e: Event)
    requires e.t in s.threads
    ensures s.threads[e.t].Notify? ==> Step(s, e).word == s.word && Step(s, e).log == s.log
    ensures !s.threads[e.t].Notify? ==> Step(s, e).threads == s.threads[e.t := Step(s, e).threads[e.t]]
  {
  }

  // ----- a free lock can be taken without anyone else's help

  /** Neither a spurious failure nor a timeout. */
  predicate Ordinary(e: Event) {
    e.c.Go? || e.c.Wake?
  }

  /** Instructions an awake waiter needs once the lock is free. */
  function Distance(pc: Pc, word: LockWord): nat {
    match pc
    case Reload(_) => 2
    case Loop(_, expected) => if expected.locked then 3 else if expected == word then 1 else 2
    case GiveUpLoad => 2
    case GiveUp(expected) => if expected == word then 1 else 2
    case _ => 0
  }

  lemma AwakeApproaches(s: State, w: Tid)
    requires w in s.threads && Awake(s.threads[w]) && !s.word.locked
    ensures var s' := Step(s, Do(w, Go));
            && w in s'.threads
            && if Distance(s.threads[w], s.word) == 1
               then Holds(s'.threads[w]) && s'.word == s.word.RemoveWaiter().Locked()
               else && s'.word == s.word && Awake(s'.threads[w])
                    && Distance(s'.threads[w], s.word) == Distance(s.threads[w], s.word) - 1
  {
  }

  lemma {:induction false} AwakeTakesLock(s: State, w: Tid) returns (es: seq<Event>)
    requires w in s.threads && Awake(s.threads[w]) && !s.word.locked
    ensures Only(Ordinary, es) && |es| == Distance(s.threads[w], s.word)
    ensures Run(Step, s, es).word == s.word.RemoveWaiter().Locked()
    ensures w in Run(Step, s, es).threads && Holds(Run(Step, s, es).threads[w])
    decreases Distance(s.threads[w], s.word)
  {
    var e := Do(w, Go);
    AwakeApproaches(s, w);
    if Distance(s.threads[w], s.word) == 1 {
      es := [e];
      Prepend(Step, s, e, []);
    } else {
      var rest := AwakeTakesLock(Step(s, e), w);
      es := [e] + rest;
      Prepend(Step, s, e, rest);
    }
  }

  /** From every reachable state in which the lock is free while `b` sleeps, at most four ordinary
      instructions, of one pending notifier and of one registered waiter, give that waiter the lock
      and take its registration back. */
  lemma FreeLockGetsTaken(s: State, b: Tid) returns (w: Tid, es: seq<Event>)
    requires Inv(s) && b in s.threads && s.threads[b].Parked? && !s.word.locked
    ensures Only(Ordinary, es) && |es| <= 4
    ensures w in s.threads && Registered(s.threads[w])
    ensures Run(Step, s, es).word == s.word.RemoveWaiter().Locked()
    ensures w in Run(Step, s, es).threads && Holds(Run(Step, s, es).threads[w])
  {
    CountHas(s.threads, b, Registered);
    if Count(s.threads, Awake) > 0 {
      w := CountWitness(s.threads, Awake);
      es := AwakeTakesLock(s, w);
    } else {
      var n := CountWitness(s.threads, Notifying);
      w := b;
      var e := Do(n, Wake(b));
      var rest := AwakeTakesLock(Step(s, e), b);
      es := [e] + rest;
      Prepend(Step, s, e, rest);
    }
  }
}
