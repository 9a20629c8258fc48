/**
 The parking mutex over the futex layer of `Futex`: where the machine of `ParkingMutex` parks in one
 step, here a waiter spins, calls the kernel, sleeps, checks the word and calls again.

 The kernel puts a caller to sleep exactly if it finds the expected word at the call.
 */
module FutexParkingMutex {
  import F = Futex
  import opened LockWords
  import P = ParkingMutex
  import opened Runs
  import opened ThreadMaps
  import opened Words

  /** Code of the mutex, or an instruction of the `atomic_wait` it called. */
  datatype Pc =
    | Code(pc: P.Pc)
    | Waiting(timed: bool, expected: LockWord, at: F.At)
    | Asleep(timed: bool, expected: LockWord)

  /** `c` is the choice of the mutex code, `r` what the kernel answers, where it has a choice. */
  datatype Event = Do(t: Tid, c: P.Choice, r: F.Result)

  datatype State = State(variant: P.Variant, word: LockWord, threads: map<Tid, Pc>)

  function Init(variant: P.Variant, threads: set<Tid>): State {
    State(variant, FREE, map t | t in threads :: Code(P.Idle))
  }

  /** Mutex code that found a locked word goes into `atomic_wait` or `atomic_wait_until`. */
  function Enter(pc: P.Pc): Pc {
    if pc.Loop? && pc.expected.locked then
      Waiting(pc.timed, pc.expected, F.Look(if pc.timed then 1 else F.ACTIVE_SPINS + F.YIELD_SPINS))
    else Code(pc)
  }

  /** The wait goes on, or returns to the mutex code. */
  function Resume(timed: bool, expected: LockWord, at: F.At): Pc {
    if !at.Returned? then Waiting(timed, expected, at)
    else Code(if timed && !at.changed then P.GiveUpLoad else P.Reload(timed))
  }

  /** One instruction inside a wait. */
  function ActWait(pc: Pc, word: LockWord, r: F.Result): Pc {
    match pc
    case Waiting(timed, expected, Syscall) =>
      if r.Interrupted? || r.Failed? || (r.TimedOut? && timed) then Resume(timed, expected, F.AfterCall(timed, r))
      else if word == expected then Asleep(timed, expected)
      else Resume(timed, expected, F.AfterCall(timed, F.Again))
    case Waiting(timed, expected, at) => Resume(timed, expected, F.AfterLoad(at, word != expected))
    case Asleep(timed, expected) =>
      if r.Woken? || r.Interrupted? || (r.TimedOut? && timed) then Resume(timed, expected, F.AfterCall(timed, r))
      else pc
    case Code(_) => pc
  }

  predicate NoSleepers(m: map<Tid, Pc>) {
    forall t :: t in m ==> !m[t].Asleep?
  }

  /** `FUTEX_WAKE` of one sleeper. */
  function NotifyOne(s: State, t: Tid, c: P.Choice): State
    requires t in s.threads
  {
    if c.Wake? && c.w in s.threads && s.threads[c.w].Asleep? then
      var w := s.threads[c.w];
      s.(threads := s.threads[t := Code(P.Idle)][c.w := Resume(w.timed, w.expected, F.AfterCall(w.timed, F.Woken))])
    else if NoSleepers(s.threads) then s.(threads := s.threads[t := Code(P.Idle)])
    else s
  }

  function Step(s: State, e: Event): State {
    if e.t !in s.threads then s
    else
      var pc := s.threads[e.t];
      if !pc.Code? then s.(threads := s.threads[e.t := ActWait(pc, s.word, e.r)])
      else if pc.pc.Notify? then NotifyOne(s, e.t, e.c)
      else
        var (next, word) := P.Act(s.variant, pc.pc, s.word, e.c);
        s.(word := word, threads := s.threads[e.t := Enter(next)])
  }

  // ----- the refinement

  /** Where the thread is in the coarse machine: parked exactly while the kernel has it asleep. */
  function Abs(pc: Pc): P.Pc {
    match pc
    case Code(p) => p
    case Waiting(timed, expected, _) => P.Loop(timed, expected)
    case Asleep(timed, expected) => P.Parked(timed, expected)
  }

  predicate Ok(pc: Pc) {
    match pc
    case Code(p) => !p.Parked? && !(p.Loop? && p.expected.locked)
    case Waiting(timed, expected, at) =>
      expected.locked && !at.Returned? && (at.LastLook? ==> timed) && (at.Look? ==> at.left > 0)
    case Asleep(_, expected) => expected.locked
  }

  ghost predicate Matches(s: State, p: P.State) {
    && p.variant == s.variant && p.word == s.word && p.threads == MapAll(s.threads, Abs)
    && forall t :: t in s.threads ==> Ok(s.threads[t])
  }

  /** The step of the coarse machine that an instruction inside a wait amounts to; a call of an operation
      in the middle of one is a stutter. */
  function WaitChoice(pc: Pc, next: Pc): P.Choice {
    if next.Asleep? && pc.Waiting? then P.Go
    else if next.Code? && next.pc.GiveUpLoad? then P.Expire
    else if next.Code? || (pc.Asleep? && next.Waiting?) then P.Flake
    else P.Call(P.Lock)
  }

  function Coarse(s: State, e: Event): P.Event {
    if e.t in s.threads && !s.threads[e.t].Code? then
      P.Do(e.t, WaitChoice(s.threads[e.t], ActWait(s.threads[e.t], s.word, e.r)))
    else P.Do(e.t, e.c)
  }

  function CoarseRun(s: State, es: seq<Event>): (ps: seq<P.Event>)
    ensures |ps| == |es|
    decreases |es|
  {
    if es == [] then [] else [Coarse(s, es[0])] + CoarseRun(Step(s, es[0]), es[1..])
  }

  lemma WaitMatches(v: P.Variant, pc: Pc, word: LockWord, r: F.Result)
    requires Ok(pc) && !pc.Code?
    ensures var next := ActWait(pc, word, r);
            Ok(next) && P.Act(v, Abs(pc), word, WaitChoice(pc, next)) == (Abs(next), word)
  {
  }

  lemma CodeMatches(v: P.Variant, pc: P.Pc, word: LockWord, c: P.Choice)
    requires Ok(Code(pc)) && !pc.Notify?
    ensures var next := P.Act(v, pc, word, c).0; Ok(Enter(next)) && Abs(Enter(next)) == next
  {
  }

  lemma NotifyMatches(s: State, p: P.State, t: Tid, c: P.Choice)
    requires Matches(s, p) && t in s.threads && s.threads[t] == Code(P.Notify)
    ensures Matches(NotifyOne(s, t, c), P.NotifyOne(p, t, c))
  {
    assert forall x :: x in s.threads ==> (s.threads[x].Asleep? <==> p.threads[x].Parked?);
    assert NoSleepers(s.threads) == P.NoSleepers(p.threads);
  }

  lemma StepMatches(s: State, p: P.State, e: Event)
    requires Matches(s, p)
    ensures Matches(Step(s, e), P.Step(p, Coarse(s, e)))
  {
    if e.t in s.threads {
      var pc := s.threads[e.t];
      if !pc.Code? {
        WaitMatches(s.variant, pc, s.word, e.r);
      } else if pc.pc.Notify? {
        NotifyMatches(s, p, e.t, e.c);
      } else {
        CodeMatches(s.variant, pc.pc, s.word, e.c);
      }
    }
  }

  lemma {:induction false} RunMatches(s: State, p: P.State, es: seq<Event>)
    requires Matches(s, p)
    ensures Matches(Run(Step, s, es), Run(P.Step, p, CoarseRun(s, es)))
    decreases |es|
  {
    if es != [] {
      StepMatches(s, p, es[0]);
      RunMatches(Step(s, es[0]), P.Step(p, Coarse(s, es[0])), es[1..]);
      Prepend(P.Step, p, Coarse(s, es[0]), CoarseRun(Step(s, es[0]), es[1..]));
    }
  }

  /** Every run over the futex layer is, step by step, a run in which waiting is one parking step: the same
      words, and a thread is parked in it exactly while the kernel has it asleep. */
  lemma WaitsRefineParking(variant: P.Variant, threads: set<Tid>, es: seq<Event>)
    ensures var s := Run(Step, Init(variant, threads), es);
            var p := Run(P.Step, P.Init(variant, threads), CoarseRun(Init(variant, threads), es));
            && p.word == s.word
            && p.threads.Keys == s.threads.Keys
            && forall t :: t in s.threads ==> p.threads[t] == Abs(s.threads[t])
                                              && (p.threads[t].Parked? <==> s.threads[t].Asleep?)
  {
    RunMatches(Init(variant, threads), P.Init(variant, threads), es);
  }

  // ----- what carries over

  /** Whenever the lock is free while a waiter is registered, some registered waiter is not asleep in the
      kernel, or the wake of one is coming. */
  lemma NeverStrandsSleepers(variant: P.Variant, threads: set<Tid>, es: seq<Event>, waiter: Tid)
    requires |threads| < TWO31 && waiter in threads
    ensures var s := Run(Step, Init(variant, threads), es);
            waiter in s.threads && (
            !s.word.locked && P.Registered(Abs(s.threads[waiter])) ==>
              exists t :: t in s.threads && (s.threads[t] == Code(P.Notify)
                                             || (P.Registered(Abs(s.threads[t])) && !s.threads[t].Asleep?)))
  {
    WaitsRefineParking(variant, threads, es);
    P.NeverStrandsSleepers(variant, threads, CoarseRun(Init(variant, threads), es), waiter);
    var s := Run(Step, Init(variant, threads), es);
    var p := Run(P.Step, P.Init(variant, threads), CoarseRun(Init(variant, threads), es));
    if !s.word.locked && P.Registered(Abs(s.threads[waiter])) {
      var t :| t in p.threads && (P.Notifying(p.threads[t]) || P.Awake(p.threads[t]));
      assert p.threads[t] == Abs(s.threads[t]);
    }
  }

  /** The word counts the registered waiters, asleep in the kernel or not, and at most one thread holds the lock. */
  lemma MutualExclusion(variant: P.Variant, threads: set<Tid>, es: seq<Event>, a: Tid, b: Tid)
    requires |threads| < TWO31
    ensures var s := Run(Step, Init(variant, threads), es);
            && s.word.waiters == Count(s.threads, (pc: Pc) => P.Registered(Abs(pc)))
            && (a in s.threads && b in s.threads && P.Holds(Abs(s.threads[a])) && P.Holds(Abs(s.threads[b])) ==> a == b)
  {
    RunMatches(Init(variant, threads), P.Init(variant, threads), es);
    var s := Run(Step, Init(variant, threads), es);
    var p := Run(P.Step, P.Init(variant, threads), CoarseRun(Init(variant, threads), es));
    P.ReachableInv(variant, threads, CoarseRun(Init(variant, threads), es));
    CountMapAll(s.threads, Abs, P.Registered, (pc: Pc) => P.Registered(Abs(pc)));
    if a in s.threads && b in s.threads && P.Holds(Abs(s.threads[a])) && P.Holds(Abs(s.threads[b])) {
      CountUnique(p.threads, P.Holds, a, b);
    }
  }

  // ----- the waits are those of the futex layer

  /** `std::bit_cast<int32_t>` of the lock word. */
  function Cast(w: LockWord): Int32 {
    Wrap(w.Bits())
  }

  /** Casting keeps words apart that differ in the lock bit, and all words whose count fits. */
  lemma CastsAgree(a: LockWord, b: LockWord)
    requires a.locked != b.locked || (a.waiters < TWO31 && b.waiters < TWO31)
    ensures Cast(a) == Cast(b) <==> a == b
  {
    assert Cast(a) == Cast(b) ==> (a.Bits() - b.Bits()) % TWO32 == 0;
  }

  /** What a system call returns at once: an error if there is one, otherwise EAGAIN. */
  function AtOnce(timed: bool, r: F.Result): F.Result {
    if r.Interrupted? || r.Failed? || (r.TimedOut? && timed) then r else F.Again
  }

  /** Inside a wait, an instruction that does not fall asleep is the next one of the loops of `Futex`, on the
      word as an `int32`. */
  lemma WaitIsFutexStep(c: F.Call, pc: Pc, word: LockWord, r: F.Result)
    requires pc.Waiting? && !pc.at.Returned? && c.timed == pc.timed && c.at == pc.at && c.expected == Cast(pc.expected)
    requires Cast(word) == Cast(pc.expected) <==> word == pc.expected
    requires pc.at.Syscall? ==> word != pc.expected || !AtOnce(pc.timed, r).Again?
    ensures var d := F.Step(c, F.Instant(Cast(word), AtOnce(pc.timed, r)));
            ActWait(pc, word, r) == Resume(pc.timed, pc.expected, d.at)
  {
  }

  // ----- a free lock can be taken without anyone else's help

  /** No call, no failure, no timeout. */
  predicate Ordinary(e: Event) {
    (e.c.Go? || e.c.Wake?) && e.r.Again?
  }

  function Own(w: Tid): Event {
    Do(w, P.Go, F.Again)
  }

  /** The state after `w` went to `pc`. */
  function At(s: State, w: Tid, pc: Pc): State {
    s.(threads := s.threads[w := pc])
  }

  /** A waiter inside a wait for a locked word returns to the mutex code by at most two instructions, once the
      lock is free. */
  lemma WaitReturns(s: State, w: Tid) returns (es: seq<Event>)
    requires w in s.threads && s.threads[w].Waiting? && Ok(s.threads[w]) && !s.word.locked
    ensures Only(Ordinary, es) && |es| <= if s.threads[w].at.Syscall? then 2 else 1
    ensures Run(Step, s, es) == At(s, w, Code(P.Reload(s.threads[w].timed)))
  {
    var pc, e := s.threads[w], Own(w);
    var now := F.Instant(Cast(s.word), F.Again);
    var c := F.Begin(pc.timed, Cast(pc.expected), pc.at);
    var c1 := F.Step(c, now);
    CastsAgree(s.word, pc.expected);
    F.ReturnsOnceChanged(c, now, now);
    F.TwoSteps(c, now, now);
    WaitIsFutexStep(c, pc, s.word, F.Again);
    var s1 := Step(s, e);
    assert s1 == At(s, w, Resume(pc.timed, pc.expected, c1.at));
    Prepend(Step, s, e, []);
    es := [e];
    if !c1.at.Returned? {
      WaitIsFutexStep(c1, s1.threads[w], s.word, F.Again);
      Prepend(Step, s1, e, []);
      Prepend(Step, s, e, [e]);
      es := [e] + [e];
      assert s.threads[w := s1.threads[w]][w := Code(P.Reload(pc.timed))] == s.threads[w := Code(P.Reload(pc.timed))];
    } else {
      F.ReturnedStays(c1, [now]);
    }
  }

  /** In the mutex code a registered waiter needs at most two instructions. */
  lemma CodeTakesLock(s: State, w: Tid) returns (es: seq<Event>)
    requires w in s.threads && s.threads[w].Code? && Ok(s.threads[w]) && P.Awake(s.threads[w].pc) && !s.word.locked
    ensures Only(Ordinary, es) && |es| <= 2
    ensures var s' := Run(Step, s, es);
            s'.word == s.word.RemoveWaiter().Locked() && w in s'.threads && s'.threads[w] == Code(P.Holding)
  {
    var e := Own(w);
    Prepend(Step, s, e, []);
    es := [e];
    if P.Distance(s.threads[w].pc, s.word) == 2 {
      Prepend(Step, Step(s, e), e, []);
      Prepend(Step, s, e, [e]);
      es := [e] + [e];
    }
  }

  lemma AwakeTakesLock(s: State, w: Tid) returns (es: seq<Event>)
    requires w in s.threads && Ok(s.threads[w]) && P.Awake(Abs(s.threads[w])) && !s.word.locked
    ensures Only(Ordinary, es) && |es| <= if s.threads[w].Waiting? && s.threads[w].at.Syscall? then 4 else 3
    ensures var s' := Run(Step, s, es);
            s'.word == s.word.RemoveWaiter().Locked() && w in s'.threads && s'.threads[w] == Code(P.Holding)
  {
    if s.threads[w].Code? {
      es := CodeTakesLock(s, w);
    } else {
      var first := WaitReturns(s, w);
      var s1 := At(s, w, Code(P.Reload(s.threads[w].timed)));
      var rest := CodeTakesLock(s1, w);
      es := first + rest;
      RunConcat(Step, s, first, rest);
    }
  }

  /** From every reachable state in which the lock is free while `b` is asleep in the kernel, at most four
      ordinary instructions, of one pending notifier and of one registered waiter, through its wait and out of
      it, give that waiter the lock and take its registration back. */
  lemma FreeLockGetsTaken(variant: P.Variant, threads: set<Tid>, before: seq<Event>, b: Tid)
    returns (w: Tid, es: seq<Event>)
    requires |threads| < TWO31
    requires var s := Run(Step, Init(variant, threads), before);
             b in s.threads && s.threads[b].Asleep? && !s.word.locked
    ensures var s := Run(Step, Init(variant, threads), before);
            var s' := Run(Step, s, es);
            && Only(Ordinary, es) && |es| <= 4
            && w in s.threads && P.Registered(Abs(s.threads[w]))
            && s'.word == s.word.RemoveWaiter().Locked() && w in s'.threads && s'.threads[w] == Code(P.Holding)
  {
    var s := Run(Step, Init(variant, threads), before);
    w := SomeoneAwakeOrNotifying(variant, threads, before, b);
    if s.threads[w] == Code(P.Notify) {
      var n := w;
      w := b;
      var e := Do(n, P.Wake(b), F.Again);
      var s1 := Step(s, e);
      assert s1.threads[b] == Waiting(s.threads[b].timed, s.threads[b].expected, F.Check) && s1.word == s.word;
      var rest := AwakeTakesLock(s1, b);
      es := [e] + rest;
      Prepend(Step, s, e, rest);
    } else {
      es := AwakeTakesLock(s, w);
    }
  }

  lemma SomeoneAwakeOrNotifying(variant: P.Variant, threads: set<Tid>, before: seq<Event>, b: Tid) returns (w: Tid)
    requires |threads| < TWO31
    requires var s := Run(Step, Init(variant, threads), before);
             b in s.threads && s.threads[b].Asleep? && !s.word.locked
    ensures var s := Run(Step, Init(variant, threads), before);
            && w in s.threads && Ok(s.threads[w]) && b in s.threads && Ok(s.threads[b])
            && (s.threads[w] == Code(P.Notify) || P.Awake(Abs(s.threads[w])))
  {
    var s := Run(Step, Init(variant, threads), before);
    var p := Run(P.Step, P.Init(variant, threads), CoarseRun(Init(variant, threads), before));
    RunMatches(Init(variant, threads), P.Init(variant, threads), before);
    P.ReachableInv(variant, threads, CoarseRun(Init(variant, threads), before));
    CountHas(p.threads, b, P.Registered);
    if Count(p.threads, P.Awake) > 0 {
      w := CountWitness(p.threads, P.Awake);
    } else {
      w := CountWitness(p.threads, P.Notifying);
    }
    assert p.threads[w] == Abs(s.threads[w]);
  }
}
