/**
 The parking semaphore: one signed word that is the free tokens minus the blocked acquirers.
 A blocked acquirer leaves when it reads a word that is not negative.

 One event executes one atomic instruction of one thread. An event that is not
 enabled leaves the state alone.
 */
module ParkingSemaphore {
  import opened Runs
  import opened ThreadMaps
  import opened Words

  datatype Pc =
    | Idle
    | Release(n: Int32)
    | NotifyOne
    | NotifyAll
    | SpinLoad
    | Spin(c: Int32)
    | Subtract
    | Compare                  // blocked: load, leave at zero or above
    | Wait(c: Int32)           // entering the futex wait
    | Parked(c: Int32)
    | TryLoad
    | TryCas(c: Int32)

  datatype Operation = ReleaseTokens(n: nat) | Acquire | TryAcquire

  /** `Flake` is a weak CAS that fails or a wait that returns for no reason; `Expire` ends a
      spin phase; `Wake` names the sleeper the kernel picks for a notify-one. */
  datatype Choice = Go | Flake | Expire | Call(op: Operation) | Wake(w: Tid)
  datatype Event = Do(t: Tid, c: Choice)

  /** History: tokens at the start, tokens released since, and acquisitions completed. */
  datatype State = State(
    backoff: bool, count: Int32, threads: map<Tid, Pc>, initial: nat, released: nat, completed: nat)

  function Init(backoff: bool, initial: nat, threads: set<Tid>): State
    requires initial < TWO31
  {
    State(backoff, initial, map t | t in threads :: Idle, initial, 0, 0)
  }

  function Enter(backoff: bool, op: Operation): Pc {
    match op
    case ReleaseTokens(n) => Release(Wrap(n))
    case Acquire => if backoff then SpinLoad else Subtract
    case TryAcquire => TryLoad
  }

  /** One instruction: the next program counter, the new word, and whether an acquisition completed. */
  datatype Effect = Effect(pc: Pc, count: Int32, done: bool)

  function TryLoop(c: Int32): Pc {
    if c > 0 then TryCas(c) else Idle
  }

  /** Whom `release(n)` wakes, by the word it found. */
  function AfterRelease(prev: Int32, n: Int32): Pc {
    if prev >= 0 then Idle
    else
      var blocked: int := 0 - prev as int;
      if (if n < blocked then n as int else blocked) == 1 then NotifyOne else NotifyAll
  }

  function Act(backoff: bool, pc: Pc, count: Int32, c: Choice): Effect {
    match pc
    case Idle => Effect(if c.Call? then Enter(backoff, c.op) else Idle, count, false)
    case Release(n) => Effect(AfterRelease(count, n), Wrap(count + n), false)
    case SpinLoad => Effect(Spin(count), count, false)
    case Spin(x) =>
      if x <= 0 then Effect(if c.Expire? then Subtract else pc, count, false)
      else if c.Go? && count == x then Effect(Idle, Wrap(x - 1), true)
      else Effect(Spin(count), count, false)
    case Subtract => Effect(if count > 0 then Idle else Compare, Wrap(count - 1), count > 0)
    case Compare => Effect(if count >= 0 then Idle else Wait(count), count, count >= 0)
    case Wait(x) =>
      Effect(if c.Go? && count == x then Parked(x) else if c.Go? || c.Flake? then Compare else pc, count, false)
    case Parked(x) => Effect(if c.Flake? then Compare else pc, count, false)
    case TryLoad => Effect(TryLoop(count), count, false)
    case TryCas(x) =>
      if count == x then Effect(Idle, Wrap(x - 1), true) else Effect(TryLoop(count), count, false)
    case NotifyOne => Effect(pc, count, false)
    case NotifyAll => Effect(pc, count, false)
  }

  /** The state after thread `t` performed `f`. */
  function Moved(s: State, t: Tid, f: Effect): State
    requires t in s.threads
  {
    var n := if s.threads[t].Release? && s.threads[t].n >= 0 then s.threads[t].n else 0;
    State(s.backoff, f.count, s.threads[t := f.pc], s.initial, s.released + n, s.completed + One(f.done))
  }

  function Woken(pc: Pc): Pc {
    if pc.Parked? then Wait(pc.c) else pc
  }

  /** A wake of one sleeper (exactly one if there is one), or of all. */
  function Notified(s: State, t: Tid, c: Choice): State
    requires t in s.threads
  {
    if s.threads[t].NotifyAll? then s.(threads := MapAll(s.threads, Woken)[t := Idle])
    else if c.Wake? && c.w in s.threads && s.threads[c.w].Parked? then
      s.(threads := s.threads[t := Idle][c.w := Woken(s.threads[c.w])])
    else if Where(s.threads, Asleep) == {} then s.(threads := s.threads[t := Idle])
    else s
  }

  predicate Notifies(pc: Pc) {
    pc.NotifyOne? || pc.NotifyAll?
  }

  function Step(s: State, e: Event): State {
    if e.t !in s.threads then s
    else if Notifies(s.threads[e.t]) then Notified(s, e.t, e.c)
    else Moved(s, e.t, Act(s.backoff, s.threads[e.t], s.count, e.c))
  }

  /** A release asks for a number of tokens an `int` holds, and the sum does not overflow. */
  predicate NoOverflow(s: State, e: Event) {
    && (e.c.Call? && e.c.op.ReleaseTokens? ==> e.c.op.n < TWO31)
    && (e.t in s.threads && s.threads[e.t].Release? ==> s.count + s.threads[e.t].n < TWO31)
  }

  /** Subtracted its token and is still blocked. */
  predicate Waits(pc: Pc) {
    pc.Compare? || pc.Wait? || pc.Parked?
  }

  predicate Asleep(pc: Pc) {
    pc.Parked?
  }

  predicate LocalOk(pc: Pc) {
    && (pc.Release? ==> pc.n >= 0)
    && (pc.TryCas? ==> pc.c > 0)
    && (pc.Wait? || pc.Parked? ==> pc.c < 0)
  }

  ghost predicate Inv(s: State) {
    && |s.threads| < TWO31
    && s.count + s.completed + Count(s.threads, Waits) == s.initial + s.released
    && s.count + Count(s.threads, Waits) >= 0
    && forall t :: t in s.threads ==> LocalOk(s.threads[t])
  }

  // ----- one instruction

  ghost predicate Keeps(pc: Pc, count: Int32, f: Effect, waits: nat) {
    var waits' := waits - One(Waits(pc)) + One(Waits(f.pc));
    && f.count + waits' >= 0 && LocalOk(f.pc)
    && f.count + One(f.done) + waits' == count + waits + if pc.Release? then pc.n else 0
  }

  ghost predicate MayAct(pc: Pc, count: Int32, c: Choice, waits: nat) {
    && LocalOk(pc) && count + waits >= 0 && (Waits(pc) ==> waits > 0) && (pc.Subtract? ==> waits < TWO31 - 1)
    && (pc.Release? ==> count + pc.n < TWO31)
    && (c.Call? && c.op.ReleaseTokens? ==> c.op.n < TWO31)
  }

  /** Instructions that may change the word. */
  predicate Writes(pc: Pc) {
    pc.Release? || pc.Subtract? || pc.Spin? || pc.TryCas?
  }

  lemma ReleaseKeeps(backoff: bool, pc: Pc, count: Int32, c: Choice, waits: nat)
    requires pc.Release? && MayAct(pc, count, c, waits)
    ensures Keeps(pc, count, Act(backoff, pc, count, c), waits)
  {
    assert Wrap(count + pc.n) == count + pc.n;
  }

  lemma WriteKeeps(backoff: bool, pc: Pc, count: Int32, c: Choice, waits: nat)
    requires Writes(pc) && MayAct(pc, count, c, waits)
    ensures Keeps(pc, count, Act(backoff, pc, count, c), waits)
  {
    match pc
    case Release(_) => ReleaseKeeps(backoff, pc, count, c, waits);
    case Subtract => assert Wrap(count - 1) == count - 1;
    case Spin(x) => assert x > 0 ==> Wrap(x - 1) == x - 1;
    case TryCas(x) => assert Wrap(x - 1) == x - 1;
  }

  lemma ReadKeeps(backoff: bool, pc: Pc, count: Int32, c: Choice, waits: nat)
    requires !Writes(pc) && MayAct(pc, count, c, waits)
    ensures Keeps(pc, count, Act(backoff, pc, count, c), waits)
  {
  }

  lemma WakeAllKeepsInv(s: State, t: Tid, c: Choice)
    requires Inv(s) && t in s.threads && s.threads[t].NotifyAll?
    ensures Inv(Notified(s, t, c))
  {
    var m := MapAll(s.threads, Woken);
    CountMapAll(s.threads, Woken, Waits, Waits);
    CountUpdate(m, t, Idle, Waits);
  }

  lemma WakeOneKeepsInv(s: State, t: Tid, c: Choice)
    requires Inv(s) && t in s.threads && s.threads[t].NotifyOne?
    ensures Inv(Notified(s, t, c))
  {
    CountUpdate(s.threads, t, Idle, Waits);
    if c.Wake? && c.w in s.threads && s.threads[c.w].Parked? {
      CountUpdate(s.threads[t := Idle], c.w, Woken(s.threads[c.w]), Waits);
    }
  }

  lemma StepKeepsInv(s: State, e: Event)
    requires Inv(s) && NoOverflow(s, e)
    ensures Inv(Step(s, e))
  {
    if e.t in s.threads {
      var pc := s.threads[e.t];
      if pc.NotifyAll? {
        WakeAllKeepsInv(s, e.t, e.c);
      } else if pc.NotifyOne? {
        WakeOneKeepsInv(s, e.t, e.c);
      } else {
        var f := Act(s.backoff, pc, s.count, e.c);
        if Waits(pc) {
          CountHas(s.threads, e.t, Waits);
        } else {
          CountUpdate(s.threads, e.t, Compare, Waits);
          CountAtMost(s.threads[e.t := Compare], Waits);
        }
        if Writes(pc) {
          WriteKeeps(s.backoff, pc, s.count, e.c, Count(s.threads, Waits));
        } else {
          ReadKeeps(s.backoff, pc, s.count, e.c, Count(s.threads, Waits));
        }
        CountUpdate(s.threads, e.t, f.pc, Waits);
      }
    }
  }

  // ----- every run

  lemma ReachableInv(backoff: bool, initial: nat, threads: set<Tid>, es: seq<Event>)
    requires initial < TWO31 && |threads| < TWO31
    requires Always(Step, NoOverflow, Init(backoff, initial, threads), es)
    ensures Inv(Run(Step, Init(backoff, initial, threads), es))
  {
    var s0 := Init(backoff, initial, threads);
    assert s0.threads.Keys == threads;
    CountZero(s0.threads, Waits);
    forall x, e | Inv(x) && NoOverflow(x, e) ensures Inv(Step(x, e)) { StepKeepsInv(x, e); }
    Invariant(Step, NoOverflow, Inv, s0, es);
  }

  lemma SameInitial(s: State, es: seq<Event>)
    ensures Run(Step, s, es).initial == s.initial
  {
    forall x: State, e ensures InitialTokens(Step(x, e)) == InitialTokens(x) {}
    Unchanged(Step, InitialTokens, s, es);
  }

  function InitialTokens(s: State): nat {
    s.initial
  }

  /** At every step the word is the tokens there were, minus the acquisitions, minus the blocked acquirers;
      and acquisitions never exceed the tokens. */
  lemma TokensConserved(backoff: bool, initial: nat, threads: set<Tid>, es: seq<Event>)
    requires initial < TWO31 && |threads| < TWO31
    requires Always(Step, NoOverflow, Init(backoff, initial, threads), es)
    ensures var s := Run(Step, Init(backoff, initial, threads), es);
            && s.count == initial + s.released - s.completed - Count(s.threads, Waits)
            && s.completed <= initial + s.released
  {
    ReachableInv(backoff, initial, threads, es);
    SameInitial(Init(backoff, initial, threads), es);
  }

  // ----- when a sleeper's wake-up is due

  predicate WakesAll(pc: Pc) {
    pc.NotifyAll?
  }

  predicate WakesOne(pc: Pc) {
    pc.NotifyOne?
  }

  /** Once the word lets the blocked acquirers go, the pending notifies reach every one that is asleep. */
  ghost predicate SleepersCovered(s: State) {
    s.count >= 0 ==> Count(s.threads, WakesAll) > 0 || Count(s.threads, Asleep) <= Count(s.threads, WakesOne)
  }

  /** A release that raises the word from -1 notifies one; that is enough if the notifies still to come
      reach all other sleepers. Any other release notifies enough. */
  ghost predicate NotifiesEnough(s: State, e: Event) {
    e.t in s.threads && s.threads[e.t].Release? && s.threads[e.t].n > 0 && s.count == -1 ==>
      Count(s.threads, WakesAll) > 0 || Count(s.threads, Asleep) <= Count(s.threads, WakesOne) + 1
  }

  /** One instruction: how the word and the kind of thread change together. */
  lemma ActCovers(backoff: bool, pc: Pc, count: Int32, c: Choice)
    requires LocalOk(pc) && (pc.Release? ==> count + pc.n < TWO31) && !Notifies(pc) && -TWO31 < count
    ensures var f := Act(backoff, pc, count, c);
            && (f.pc.Parked? && !pc.Parked? ==> f.count == count < 0)
            && (f.pc.NotifyOne? ==> pc.Release? && count < 0 && (f.count >= 0 ==> pc.n > 0 && count == -1))
            && (f.pc.NotifyAll? ==> pc.Release? && count < 0)
            && (f.count >= 0 > count ==>
                  pc.Release? && pc.n > 0 && (if count == -1 then f.pc.NotifyOne? else f.pc.NotifyAll?))
            && (pc.Release? && pc.n > 0 && count == -1 ==> f.count >= 0)
  {
    match pc
    case Release(n) => assert Wrap(count + n) == count + n;
    case Subtract => assert Wrap(count - 1) == count - 1;
    case Spin(x) => assert x > 0 ==> Wrap(x - 1) == x - 1;
    case TryCas(x) => assert Wrap(x - 1) == x - 1;
    case _ =>
  }

  lemma WakeCounts(m: map<Tid, Pc>, t: Tid, pc: Pc)
    requires t in m
    ensures Count(m[t := pc], WakesAll) == Count(m, WakesAll) - One(WakesAll(m[t])) + One(WakesAll(pc))
    ensures Count(m[t := pc], WakesOne) == Count(m, WakesOne) - One(WakesOne(m[t])) + One(WakesOne(pc))
    ensures Count(m[t := pc], Asleep) == Count(m, Asleep) - One(Asleep(m[t])) + One(Asleep(pc))
  {
    CountUpdate(m, t, pc, WakesAll);
    CountUpdate(m, t, pc, WakesOne);
    CountUpdate(m, t, pc, Asleep);
  }

  lemma NotifyCovers(s: State, t: Tid, c: Choice)
    requires t in s.threads && Notifies(s.threads[t]) && SleepersCovered(s)
    ensures SleepersCovered(Notified(s, t, c))
  {
    var m := MapAll(s.threads, Woken);
    if s.threads[t].NotifyAll? {
      CountZero(m[t := Idle], Asleep);
    } else {
      WakeCounts(s.threads, t, Idle);
      if c.Wake? && c.w in s.threads && s.threads[c.w].Parked? {
        WakeCounts(s.threads[t := Idle], c.w, Woken(s.threads[c.w]));
      }
    }
  }

  /** While the sleepers are covered, the one step after which one is not is a release from -1 that wakes
      one of several sleepers. */
  lemma StepCoversExactly(s: State, e: Event)
    requires Inv(s) && NoOverflow(s, e) && SleepersCovered(s)
    ensures SleepersCovered(Step(s, e)) <==> NotifiesEnough(s, e)
  {
    if e.t in s.threads {
      var pc := s.threads[e.t];
      if Notifies(pc) {
        NotifyCovers(s, e.t, e.c);
      } else {
        CountAtMost(s.threads, Waits);
        ActCovers(s.backoff, pc, s.count, e.c);
        WakeCounts(s.threads, e.t, Act(s.backoff, pc, s.count, e.c).pc);
      }
    }
  }

  ghost predicate CoveredAfter(s: State, e: Event) {
    SleepersCovered(Step(s, e))
  }

  /** Throughout a run every sleeper has a wake-up coming once the word lets it go, exactly if every release
      of the run notifies enough. */
  lemma SleepersCoveredExactly(backoff: bool, initial: nat, threads: set<Tid>, es: seq<Event>)
    requires initial < TWO31 && |threads| < TWO31
    requires Always(Step, NoOverflow, Init(backoff, initial, threads), es)
    ensures var s0 := Init(backoff, initial, threads);
            && (Always(Step, CoveredAfter, s0, es) <==> Always(Step, NotifiesEnough, s0, es))
            && (Always(Step, NotifiesEnough, s0, es) ==> SleepersCovered(Run(Step, s0, es)))
  {
    var s0 := Init(backoff, initial, threads);
    ReachableInv(backoff, initial, threads, []);
    CountZero(s0.threads, Asleep);
    forall x, e | Inv(x) && NoOverflow(x, e) ensures Inv(Step(x, e)) { StepKeepsInv(x, e); }
    forall x, e | Inv(x) && NoOverflow(x, e) && SleepersCovered(x)
      ensures SleepersCovered(Step(x, e)) <==> NotifiesEnough(x, e)
    {
      StepCoversExactly(x, e);
    }
    KeptExactly(Step, NoOverflow, Inv, SleepersCovered, NotifiesEnough, CoveredAfter, s0, es);
  }

  // ----- when a blocked acquirer gets through

  /** No new call, no return for no reason; the kernel picks whom a notify wakes. */
  predicate Ordinary(e: Event) {
    e.c.Go? || e.c.Wake?
  }

  /** From a covered state whose word lets it go, a blocked acquirer acquires by at most three instructions
      of its own and of one notifier. */
  lemma CoveredGetsThrough(s: State, t: Tid) returns (es: seq<Event>)
    requires Inv(s) && SleepersCovered(s) && s.count >= 0 && t in s.threads && Waits(s.threads[t])
    ensures Only(Ordinary, es) && |es| <= 3
    ensures var s' := Run(Step, s, es); t in s'.threads && s'.threads[t].Idle? && s'.completed == s.completed + 1
  {
    if s.threads[t].Parked? {
      CountHas(s.threads, t, Asleep);
      var n: Tid;
      if Count(s.threads, WakesAll) > 0 {
        n := CountWitness(s.threads, WakesAll);
      } else {
        n := CountWitness(s.threads, WakesOne);
      }
      es := NotifiedGetsThrough(s, n, t);
    } else {
      es := AwakeGetsThrough(s, t);
    }
  }

  lemma AwakeGetsThrough(s: State, t: Tid) returns (es: seq<Event>)
    requires Inv(s) && s.count >= 0 && t in s.threads && (s.threads[t].Compare? || s.threads[t].Wait?)
    ensures Only(Ordinary, es) && |es| <= 2
    ensures var s' := Run(Step, s, es); t in s'.threads && s'.threads[t].Idle? && s'.completed == s.completed + 1
  {
    var e := Do(t, Go);
    Prepend(Step, s, e, []);
    es := [e];
    if s.threads[t].Wait? {
      Prepend(Step, Step(s, e), e, []);
      Prepend(Step, s, e, [e]);
      es := [e] + [e];
    }
  }

  lemma NotifiedGetsThrough(s: State, n: Tid, t: Tid) returns (es: seq<Event>)
    requires Inv(s) && s.count >= 0 && t in s.threads && s.threads[t].Parked?
    requires n in s.threads && Notifies(s.threads[n])
    ensures Only(Ordinary, es) && |es| <= 3
    ensures var s' := Run(Step, s, es); t in s'.threads && s'.threads[t].Idle? && s'.completed == s.completed + 1
  {
    var e := Do(n, Wake(t));
    var s1 := Step(s, e);
    assert NoOverflow(s, e);
    StepKeepsInv(s, e);
    assert s1.threads[t] == Woken(s.threads[t]) && s1.count == s.count && s1.completed == s.completed;
    var rest := AwakeGetsThrough(s1, t);
    es := [e] + rest;
    Prepend(Step, s, e, rest);
  }

  /** Every thread is idle, blocked, or about to notify: no call is under way that will change the word. */
  predicate Settled(s: State) {
    forall t :: t in s.threads ==> s.threads[t].Idle? || Waits(s.threads[t]) || Notifies(s.threads[t])
  }

  /** The thread is blocked, and either the word is negative, or it sleeps and nobody is about to notify. */
  predicate Held(s: State, t: Tid) {
    && Settled(s) && t in s.threads && Waits(s.threads[t])
    && (s.count < 0 || (s.threads[t].Parked? && forall n :: n in s.threads ==> !Notifies(s.threads[n])))
  }

  lemma {:induction false} HeldStaysHeld(s: State, es: seq<Event>, t: Tid)
    requires Held(s, t) && Only(Ordinary, es)
    ensures Held(Run(Step, s, es), t)
    decreases |es|
  {
    if es != [] {
      assert Ordinary(es[0]);
      HeldStep(s, es[0], t);
      HeldStaysHeld(Step(s, es[0]), es[1..], t);
    }
  }

  lemma HeldStep(s: State, e: Event, t: Tid)
    requires Held(s, t) && Ordinary(e)
    ensures Held(Step(s, e), t)
  {
  }

  /** With no other call under way, a blocked acquirer can get through by ordinary instructions exactly if
      the tokens not yet acquired suffice for all blocked acquirers, and it is awake or a notify is coming. */
  lemma GetsThroughExactly(s: State, t: Tid)
    requires Inv(s) && Settled(s) && t in s.threads && Waits(s.threads[t])
    ensures (exists es :: Only(Ordinary, es) && t in Run(Step, s, es).threads && Run(Step, s, es).threads[t].Idle?) <==>
            && s.initial + s.released - s.completed >= Count(s.threads, Waits)
            && (!s.threads[t].Parked? || exists n :: n in s.threads && Notifies(s.threads[n]))
  {
    if Held(s, t) {
      forall es | Only(Ordinary, es) ensures Held(Run(Step, s, es), t) { HeldStaysHeld(s, es, t); }
    } else if s.threads[t].Parked? {
      var n :| n in s.threads && Notifies(s.threads[n]);
      var es := NotifiedGetsThrough(s, n, t);
    } else {
      var es := AwakeGetsThrough(s, t);
    }
  }

  // ----- two runs that leave a token unused

  /** Threads 0 and 1 acquire, thread 2 releases; nothing was there at the start. */
  predicate At(s: State, zero: Pc, one: Pc, two: Pc, count: int, released: nat, completed: nat) {
    && s.threads.Keys == {0, 1, 2} && s.threads[0] == zero && s.threads[1] == one && s.threads[2] == two
    && s.count == count && s.released == released && s.initial == 0 && s.completed == completed && !s.backoff
  }

  lemma {:induction false} SleepersStay(s: State, es: seq<Event>)
    requires (forall t :: t in s.threads ==> s.threads[t].Idle? || s.threads[t].Parked?) && Only(Ordinary, es)
    ensures Run(Step, s, es) == s
    decreases |es|
  {
    if es != [] {
      assert Ordinary(es[0]);
      assert Step(s, es[0]).threads == s.threads;
      SleepersStay(Step(s, es[0]), es[1..]);
    }
  }

  /** Everybody is idle or asleep. */
  lemma NothingMoves(s: State)
    requires forall t :: t in s.threads ==> s.threads[t].Idle? || s.threads[t].Parked?
    ensures forall es :: Only(Ordinary, es) ==> Run(Step, s, es) == s
  {
    forall es | Only(Ordinary, es) ensures Run(Step, s, es) == s { SleepersStay(s, es); }
  }

  /** Two acquirers block; one token is released; its notify wakes one of them, which sleeps again. Without a
      further call no ordinary instruction changes anything from then on, although a token is there. */
  lemma ReleasedTokenCanBeStuck() returns (es: seq<Event>)
    ensures var s := Run(Step, Init(false, 0, {0, 1, 2}), es);
            && At(s, Parked(-1), Parked(-2), Idle, -1, 1, 0)
            && forall more :: Only(Ordinary, more) ==> Run(Step, s, more) == s
  {
    es := OneTokenRun();
    NothingMoves(Run(Step, Init(false, 0, {0, 1, 2}), es));
  }

  lemma OneTokenRun() returns (es: seq<Event>)
    ensures At(Run(Step, Init(false, 0, {0, 1, 2}), es), Parked(-1), Parked(-2), Idle, -1, 1, 0)
  {
    var s0 := Init(false, 0, {0, 1, 2});
    var a := [Do(0, Call(Acquire)), Do(0, Go), Do(0, Go)];
    var b := [Do(0, Go), Do(1, Call(Acquire)), Do(1, Go)];
    var c := [Do(1, Go), Do(1, Go), Do(2, Call(ReleaseTokens(1)))];
    var d := [Do(2, Go), Do(2, Wake(0)), Do(0, Go)];
    var s1 := FirstBlocks(s0);
    Three(Step, s0, a[0], a[1], a[2]);
    var s2 := FirstSleeps(s1);
    Three(Step, s1, b[0], b[1], b[2]);
    var s3 := SecondSleeps(s2);
    Three(Step, s2, c[0], c[1], c[2]);
    var s4 := OneReleased(s3);
    Three(Step, s3, d[0], d[1], d[2]);
    es := a + (b + (c + d));
    RunConcat(Step, s2, c, d);
    RunConcat(Step, s1, b, c + d);
    RunConcat(Step, s0, a, b + (c + d));
  }

  /** A second token is released; its notify lets one acquirer go. The other one sleeps on, although the word
      is zero and a token is there for it, and no ordinary instruction changes that. */
  lemma LastSleeperCanBeStuck() returns (es: seq<Event>)
    ensures var s := Run(Step, Init(false, 0, {0, 1, 2}), es);
            && At(s, Idle, Parked(-2), Idle, 0, 2, 1) && !SleepersCovered(s)
            && forall more :: Only(Ordinary, more) ==> Run(Step, s, more) == s
  {
    es := TwoTokensRun();
    var s := Run(Step, Init(false, 0, {0, 1, 2}), es);
    NothingMoves(s);
    CountHas(s.threads, 1, Asleep);
    CountZero(s.threads, WakesAll);
    CountZero(s.threads, WakesOne);
  }

  lemma TwoTokensRun() returns (es: seq<Event>)
    ensures At(Run(Step, Init(false, 0, {0, 1, 2}), es), Idle, Parked(-2), Idle, 0, 2, 1)
  {
    var s0 := Init(false, 0, {0, 1, 2});
    var first := OneTokenRun();
    var s1 := Run(Step, s0, first);
    var a := [Do(2, Call(ReleaseTokens(1))), Do(2, Go), Do(2, Wake(0))];
    var b := [Do(0, Go), Do(0, Go), Do(0, Go)];
    var s2 := TwoReleased(s1);
    Three(Step, s1, a[0], a[1], a[2]);
    var s3 := FirstLeaves(s2);
    Three(Step, s2, b[0], b[1], b[2]);
    es := first + (a + b);
    RunConcat(Step, s1, a, b);
    RunConcat(Step, s0, first, a + b);
  }

  lemma TwoReleased(s: State) returns (s': State)
    requires At(s, Parked(-1), Parked(-2), Idle, -1, 1, 0)
    ensures s' == Step(Step(Step(s, Do(2, Call(ReleaseTokens(1)))), Do(2, Go)), Do(2, Wake(0)))
    ensures At(s', Wait(-1), Parked(-2), Idle, 0, 2, 0)
  {
    var s1 := Step(s, Do(2, Call(ReleaseTokens(1))));
    assert At(s1, Parked(-1), Parked(-2), Release(1), -1, 1, 0);
    var s2 := Step(s1, Do(2, Go));
    assert At(s2, Parked(-1), Parked(-2), NotifyOne, 0, 2, 0);
    s' := Step(s2, Do(2, Wake(0)));
  }

  lemma FirstLeaves(s: State) returns (s': State)
    requires At(s, Wait(-1), Parked(-2), Idle, 0, 2, 0)
    ensures s' == Step(Step(Step(s, Do(0, Go)), Do(0, Go)), Do(0, Go))
    ensures At(s', Idle, Parked(-2), Idle, 0, 2, 1)
  {
    var s1 := Step(s, Do(0, Go));
    assert At(s1, Compare, Parked(-2), Idle, 0, 2, 0);
    var s2 := Step(s1, Do(0, Go));
    assert At(s2, Idle, Parked(-2), Idle, 0, 2, 1);
    s' := Step(s2, Do(0, Go));
  }

  lemma FirstBlocks(s: State) returns (s': State)
    requires At(s, Idle, Idle, Idle, 0, 0, 0)
    ensures s' == Step(Step(Step(s, Do(0, Call(Acquire))), Do(0, Go)), Do(0, Go))
    ensures At(s', Wait(-1), Idle, Idle, -1, 0, 0)
  {
    var s1 := Step(s, Do(0, Call(Acquire)));
    assert At(s1, Subtract, Idle, Idle, 0, 0, 0);
    var s2 := Step(s1, Do(0, Go));
    assert At(s2, Compare, Idle, Idle, -1, 0, 0);
    s' := Step(s2, Do(0, Go));
  }

  lemma FirstSleeps(s: State) returns (s': State)
    requires At(s, Wait(-1), Idle, Idle, -1, 0, 0)
    ensures s' == Step(Step(Step(s, Do(0, Go)), Do(1, Call(Acquire))), Do(1, Go))
    ensures At(s', Parked(-1), Compare, Idle, -2, 0, 0)
  {
    var s1 := Step(s, Do(0, Go));
    assert At(s1, Parked(-1), Idle, Idle, -1, 0, 0);
    var s2 := Step(s1, Do(1, Call(Acquire)));
    assert At(s2, Parked(-1), Subtract, Idle, -1, 0, 0);
    s' := Step(s2, Do(1, Go));
  }

  lemma SecondSleeps(s: State) returns (s': State)
    requires At(s, Parked(-1), Compare, Idle, -2, 0, 0)
    ensures s' == Step(Step(Step(s, Do(1, Go)), Do(1, Go)), Do(2, Call(ReleaseTokens(1))))
    ensures At(s', Parked(-1), Parked(-2), Release(1), -2, 0, 0)
  {
    var s1 := Step(s, Do(1, Go));
    assert At(s1, Parked(-1), Wait(-2), Idle, -2, 0, 0);
    var s2 := Step(s1, Do(1, Go));
    assert At(s2, Parked(-1), Parked(-2), Idle, -2, 0, 0);
    s' := Step(s2, Do(2, Call(ReleaseTokens(1))));
  }

  lemma OneReleased(s: State) returns (s': State)
    requires At(s, Parked(-1), Parked(-2), Release(1), -2, 0, 0)
    ensures s' == Step(Step(Step(s, Do(2, Go)), Do(2, Wake(0))), Do(0, Go))
    ensures At(s', Parked(-1), Parked(-2), Idle, -1, 1, 0)
  {
    var s1 := Step(s, Do(2, Go));
    assert At(s1, Parked(-1), Parked(-2), NotifyOne, -1, 1, 0);
    var s2 := Step(s1, Do(2, Wake(0)));
    assert At(s2, Wait(-1), Parked(-2), Idle, -1, 1, 0);
    s' := Step(s2, Do(0, Go));
  }
}
