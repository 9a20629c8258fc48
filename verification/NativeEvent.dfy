/**
 The native auto-reset event on Apple systems: a token counter, a count of blocked or
 blocking waiters, and a one-bit kernel trigger that merges repeated triggers. A waiter
 that takes a token passes the wake-up on when tokens and other waiters remain.

 One event executes one atomic instruction of one thread. An event that is not
 enabled leaves the state alone.
 */
module NativeEvent {
  import opened Runs
  import opened ThreadMaps
  import opened Words

  /** Which `try_wait` is running: the public one, the fast path, the one before
      blocking, or the one after the kernel returned. */
  datatype Phase = Poll | Fast(timed: bool) | First(timed: bool) | After(timed: bool)

  datatype Pc =
    | Idle
    | SignalLoad
    | SignalCas
    | SignalAdd
    | Trigger(chain: bool)             // fire NOTE_TRIGGER, from signal or from the chain
    | TakeLoad(phase: Phase)
    | TakeCas(phase: Phase, s: Int32)
    | AddWaiter(timed: bool)
    | Kevent(timed: bool)              // blocked in the kernel
    | ChainTokens
    | ChainWaiters
    | SubWaiter(took: bool)            // the counter, and the result of the call

  datatype Operation = Signal | TryWait | Wait | TryWaitFor

  /** `Flake` is a weak CAS that fails or an untimed `kevent` that returns for no reason; `Expire` is a timeout. */
  datatype Choice = Go | Flake | Expire | Call(op: Operation)
  datatype Event = Do(t: Tid, c: Choice)

  datatype Shared = Shared(tokens: Int32, waiters: Word, trigger: bool)

  /** `initial`, `created` and `consumed` are history: tokens the event started with, was given and gave out. */
  datatype State = State(mem: Shared, threads: map<Tid, Pc>, initial: nat, created: nat, consumed: nat)

  function Init(set_: bool, threads: set<Tid>): State {
    State(Shared(if set_ then 1 else 0, 0, set_), map t | t in threads :: Idle, One(set_), 0, 0)
  }

  function Enter(op: Operation): Pc {
    match op
    case Signal => SignalLoad
    case TryWait => TakeLoad(Poll)
    case Wait => TakeLoad(Fast(false))
    case TryWaitFor => TakeLoad(Fast(true))
  }

  function Took(phase: Phase): Pc {
    if phase.Poll? || phase.Fast? then Idle else ChainTokens
  }

  function Missed(phase: Phase): Pc {
    match phase
    case Poll => Idle
    case Fast(timed) => AddWaiter(timed)
    case First(timed) => Kevent(timed)
    case After(timed) => if timed then SubWaiter(false) else TakeLoad(First(false))
  }

  function TakeLoop(phase: Phase, s: Int32): Pc {
    if s > 0 then TakeCas(phase, s) else Missed(phase)
  }

  /** `signal` */
  function ActSignal(pc: Pc, m: Shared): (Pc, Shared) {
    match pc
    case SignalLoad => (if m.waiters == 0 then SignalCas else SignalAdd, m)
    case SignalCas => if m.tokens == 0 then (Trigger(false), m.(tokens := 1)) else (Idle, m)
    case SignalAdd => (if m.tokens == 0 then Trigger(false) else Idle, m.(tokens := Wrap(m.tokens + 1)))
    case Trigger(chain) => (if chain then SubWaiter(true) else Idle, m.(trigger := true))
    case _ => (pc, m)
  }

  /** `try_wait`, `wait` and `try_wait_for` */
  function ActWait(pc: Pc, m: Shared, c: Choice): (Pc, Shared) {
    match pc
    case TakeLoad(phase) => (TakeLoop(phase, m.tokens), m)
    case TakeCas(phase, s) =>
      if c.Go? && m.tokens == s then (Took(phase), m.(tokens := Wrap(s - 1))) else (TakeLoop(phase, m.tokens), m)
    case AddWaiter(timed) => (TakeLoad(First(timed)), m.(waiters := Add(m.waiters, 1)))
    case Kevent(timed) =>
      if c.Go? && m.trigger then (TakeLoad(After(timed)), m.(trigger := false))
      else if c.Flake? && !timed then (TakeLoad(After(timed)), m)
      else if c.Expire? && timed then (SubWaiter(false), m)
      else (pc, m)
    case ChainTokens => (if m.tokens > 0 then ChainWaiters else SubWaiter(true), m)
    case ChainWaiters => (if m.waiters > 1 then Trigger(true) else SubWaiter(true), m)
    case SubWaiter(_) => (Idle, m.(waiters := Sub(m.waiters, 1)))
    case _ => (pc, m)
  }

  predicate Signals(pc: Pc) {
    pc.SignalLoad? || pc.SignalCas? || pc.SignalAdd? || pc.Trigger?
  }

  function Act(pc: Pc, m: Shared, c: Choice): (Pc, Shared) {
    if pc.Idle? then (if c.Call? then Enter(c.op) else Idle, m)
    else if Signals(pc) then ActSignal(pc, m)
    else ActWait(pc, m, c)
  }

  /** The state after thread `t` moved to `pc` and left the memory as `m`. */
  function Moved(s: State, t: Tid, pc: Pc, m: Shared): State
    requires t in s.threads
  {
    var pc0 := s.threads[t];
    State(m, s.threads[t := pc], s.initial,
          s.created + One(pc0.SignalAdd? || (pc0.SignalCas? && pc.Trigger?)),
          s.consumed + One(pc0.TakeCas? && m.tokens != s.mem.tokens))
  }

  function Step(s: State, e: Event): State {
    if e.t !in s.threads then s
    else
      var (pc, m) := Act(s.threads[e.t], s.mem, e.c);
      Moved(s, e.t, pc, m)
  }

  /** The counter is an `int`: a signal must not find it at the largest value. */
  predicate NoOverflow(s: State, e: Event) {
    e.t in s.threads && s.threads[e.t].SignalAdd? ==> s.mem.tokens < TWO31 - 1
  }

  // ----- classes of program counters

  predicate Blocked(pc: Pc) {
    pc.Kevent?
  }

  predicate Triggering(pc: Pc) {
    pc.Trigger?
  }

  /** An awake counted waiter that has yet to do its `try_wait` or its chain check. */
  predicate Checking(pc: Pc) {
    || pc.ChainTokens? || pc.ChainWaiters?
    || ((pc.TakeLoad? || pc.TakeCas?) && (pc.phase.First? || pc.phase.After?))
  }

  /** Counted in `wait_count_` and not blocked. */
  predicate AwakeCounted(pc: Pc) {
    Checking(pc) || pc.SubWaiter? || pc == Trigger(true)
  }

  // ----- the invariant

  ghost predicate WakeUpDue(s: State) {
    s.mem.trigger || Count(s.threads, Triggering) > 0 || Count(s.threads, Checking) > 0
  }

  ghost predicate NoLostWakeUp(s: State) {
    s.mem.tokens > 0 && Count(s.threads, Blocked) > 0 ==> WakeUpDue(s)
  }

  ghost predicate WaitersCounted(s: State) {
    s.mem.waiters == Count(s.threads, Blocked) + Count(s.threads, AwakeCounted)
  }

  ghost predicate Conserved(s: State) {
    s.mem.tokens >= 0 && s.mem.tokens + s.consumed == s.initial + s.created
  }

  predicate LocalOk(pc: Pc) {
    pc.TakeCas? ==> pc.s > 0
  }

  ghost predicate LocalsOk(s: State) {
    forall t :: t in s.threads ==> LocalOk(s.threads[t])
  }

  ghost predicate Inv(s: State) {
    && |s.threads| < TWO32
    && NoLostWakeUp(s) && WaitersCounted(s) && Conserved(s) && LocalsOk(s)
  }

  // ----- one instruction, seen from the thread that executes it

  /** What the executing thread may assume about the counts. */
  ghost predicate Known(pc: Pc, m: Shared, blocked: nat, awake: nat, triggering: nat, checking: nat) {
    && m.waiters == blocked + awake && m.tokens >= 0
    && (if Blocked(pc) then blocked > 0 else if AwakeCounted(pc) then awake > 0 else m.waiters + 1 < TWO32)
    && (Triggering(pc) ==> triggering > 0)
    && (Checking(pc) ==> checking > 0)
    && (m.tokens > 0 && blocked > 0 ==> m.trigger || triggering > 0 || checking > 0)
    && LocalOk(pc)
  }

  ghost predicate StillCounted(pc: Pc, r: (Pc, Shared), blocked: int, awake: int) {
    r.1.waiters == blocked - One(Blocked(pc)) + One(Blocked(r.0))
                   + awake - One(AwakeCounted(pc)) + One(AwakeCounted(r.0))
  }

  ghost predicate StillDue(pc: Pc, r: (Pc, Shared), blocked: int, triggering: int, checking: int) {
    r.1.tokens > 0 && blocked - One(Blocked(pc)) + One(Blocked(r.0)) > 0 ==>
      || r.1.trigger
      || triggering - One(Triggering(pc)) + One(Triggering(r.0)) > 0
      || checking - One(Checking(pc)) + One(Checking(r.0)) > 0
  }

  ghost predicate Keeps(pc: Pc, r: (Pc, Shared), blocked: nat, awake: nat, triggering: nat, checking: nat) {
    StillCounted(pc, r, blocked, awake) && StillDue(pc, r, blocked, triggering, checking) && LocalOk(r.0)
  }

  lemma SignalKeeps(pc: Pc, m: Shared, blocked: nat, awake: nat, triggering: nat, checking: nat)
    requires Known(pc, m, blocked, awake, triggering, checking) && Signals(pc)
    requires pc.SignalAdd? ==> m.tokens < TWO31 - 1
    ensures Keeps(pc, ActSignal(pc, m), blocked, awake, triggering, checking)
  {
  }

  lemma WaitKeeps(pc: Pc, m: Shared, c: Choice, blocked: nat, awake: nat, triggering: nat, checking: nat)
    requires Known(pc, m, blocked, awake, triggering, checking) && !Signals(pc)
    ensures Keeps(pc, ActWait(pc, m, c), blocked, awake, triggering, checking)
  {
  }

  lemma ActKeeps(pc: Pc, m: Shared, c: Choice, blocked: nat, awake: nat, triggering: nat, checking: nat)
    requires Known(pc, m, blocked, awake, triggering, checking) && (pc.SignalAdd? ==> m.tokens < TWO31 - 1)
    ensures Keeps(pc, Act(pc, m, c), blocked, awake, triggering, checking)
  {
    if Signals(pc) {
      SignalKeeps(pc, m, blocked, awake, triggering, checking);
    } else if !pc.Idle? {
      WaitKeeps(pc, m, c, blocked, awake, triggering, checking);
    }
  }

  lemma ActConserves(pc: Pc, m: Shared, c: Choice)
    requires m.tokens >= 0 && LocalOk(pc) && (pc.SignalAdd? ==> m.tokens < TWO31 - 1)
    ensures var (pc', m') := Act(pc, m, c);
            && m'.tokens >= 0
            && m'.tokens + One(pc.TakeCas? && m'.tokens != m.tokens)
               == m.tokens + One(pc.SignalAdd? || (pc.SignalCas? && pc'.Trigger?))
  {
  }

  // ----- the whole machine

  lemma Counts(m: map<Tid, Pc>, t: Tid, pc: Pc)
    requires t in m
    ensures |m[t := pc]| == |m|
    ensures Count(m[t := pc], Blocked) == Count(m, Blocked) - One(Blocked(m[t])) + One(Blocked(pc))
    ensures Count(m[t := pc], AwakeCounted) == Count(m, AwakeCounted) - One(AwakeCounted(m[t])) + One(AwakeCounted(pc))
    ensures Count(m[t := pc], Triggering) == Count(m, Triggering) - One(Triggering(m[t])) + One(Triggering(pc))
    ensures Count(m[t := pc], Checking) == Count(m, Checking) - One(Checking(m[t])) + One(Checking(pc))
  {
    CountUpdate(m, t, pc, Blocked);
    CountUpdate(m, t, pc, AwakeCounted);
    CountUpdate(m, t, pc, Triggering);
    CountUpdate(m, t, pc, Checking);
  }

  lemma ThreadMayAssume(s: State, t: Tid)
    requires Inv(s) && t in s.threads
    ensures Known(s.threads[t], s.mem, Count(s.threads, Blocked), Count(s.threads, AwakeCounted),
                  Count(s.threads, Triggering), Count(s.threads, Checking))
  {
    var m, pc := s.threads, s.threads[t];
    if Blocked(pc) { CountHas(m, t, Blocked); }
    if AwakeCounted(pc) { CountHas(m, t, AwakeCounted); }
    if Triggering(pc) { CountHas(m, t, Triggering); }
    if Checking(pc) { CountHas(m, t, Checking); }
    if !Blocked(pc) && !AwakeCounted(pc) {
      Counts(m, t, SubWaiter(false));
      CountDisjoint(m[t := SubWaiter(false)], Blocked, AwakeCounted);
    }
  }

  lemma MovedKeepsWaiters(s: State, t: Tid, r: (Pc, Shared))
    requires t in s.threads && StillCounted(s.threads[t], r, Count(s.threads, Blocked), Count(s.threads, AwakeCounted))
    ensures |s.threads[t := r.0]| == |s.threads| && WaitersCounted(Moved(s, t, r.0, r.1))
  {
    Counts(s.threads, t, r.0);
  }

  lemma MovedKeepsWakeUps(s: State, t: Tid, r: (Pc, Shared))
    requires t in s.threads
    requires StillDue(s.threads[t], r,
                      Count(s.threads, Blocked), Count(s.threads, Triggering), Count(s.threads, Checking))
    ensures NoLostWakeUp(Moved(s, t, r.0, r.1))
  {
    Counts(s.threads, t, r.0);
  }

  lemma StepConserves(s: State, e: Event)
    requires LocalsOk(s) && Conserved(s) && NoOverflow(s, e) && e.t in s.threads
    requires LocalOk(Act(s.threads[e.t], s.mem, e.c).0)
    ensures Conserved(Step(s, e)) && LocalsOk(Step(s, e))
  {
    ActConserves(s.threads[e.t], s.mem, e.c);
  }

  lemma StepKeepsInv(s: State, e: Event)
    requires Inv(s) && NoOverflow(s, e)
    ensures Inv(Step(s, e))
  {
    if e.t in s.threads {
      var pc, r := s.threads[e.t], Act(s.threads[e.t], s.mem, e.c);
      ThreadMayAssume(s, e.t);
      ActKeeps(pc, s.mem, e.c, Count(s.threads, Blocked), Count(s.threads, AwakeCounted),
               Count(s.threads, Triggering), Count(s.threads, Checking));
      assert Step(s, e) == Moved(s, e.t, r.0, r.1);
      MovedKeepsWaiters(s, e.t, r);
      MovedKeepsWakeUps(s, e.t, r);
      StepConserves(s, e);
    }
  }

  // ----- every run

  lemma ReachableInv(set_: bool, threads: set<Tid>, es: seq<Event>)
    requires |threads| < TWO32 && Always(Step, NoOverflow, Init(set_, threads), es)
    ensures Inv(Run(Step, Init(set_, threads), es))
  {
    var s0 := Init(set_, threads);
    assert s0.threads.Keys == threads;
    CountZero(s0.threads, Blocked);
    CountZero(s0.threads, AwakeCounted);
    forall x, e | Inv(x) && NoOverflow(x, e) ensures Inv(Step(x, e)) { StepKeepsInv(x, e); }
    Invariant(Step, NoOverflow, Inv, s0, es);
  }

  /** What no step changes. */
  function Fixed(s: State): (set<Tid>, nat) {
    (s.threads.Keys, s.initial)
  }

  lemma SameThreadsAndInitial(s: State, es: seq<Event>)
    ensures Fixed(Run(Step, s, es)) == Fixed(s)
  {
    forall x: State, e ensures Fixed(Step(x, e)) == Fixed(x) {
      assert Step(x, e).threads.Keys == x.threads.Keys;
    }
    Unchanged(Step, Fixed, s, es);
  }

  /** Whenever tokens remain while a waiter is blocked in the kernel, the trigger is set, or some thread is
      about to set it, or an awake counted waiter has yet to do its `try_wait` or its chain check. */
  lemma NeverLosesWakeUp(set_: bool, threads: set<Tid>, es: seq<Event>, waiter: Tid)
    requires |threads| < TWO32 && waiter in threads && Always(Step, NoOverflow, Init(set_, threads), es)
    ensures var s := Run(Step, Init(set_, threads), es);
            waiter in s.threads && (
            s.mem.tokens > 0 && Blocked(s.threads[waiter]) ==>
              || s.mem.trigger
              || exists t :: t in s.threads && (Triggering(s.threads[t]) || Checking(s.threads[t])))
  {
    var s := Run(Step, Init(set_, threads), es);
    ReachableInv(set_, threads, es);
    SameThreadsAndInitial(Init(set_, threads), es);
    if s.mem.tokens > 0 && Blocked(s.threads[waiter]) && !s.mem.trigger {
      CountHas(s.threads, waiter, Blocked);
      var t: Tid;
      if Count(s.threads, Triggering) > 0 {
        t := CountWitness(s.threads, Triggering);
      } else {
        t := CountWitness(s.threads, Checking);
      }
    }
  }

  /** Tokens are neither lost nor invented. */
  lemma TokensConserved(set_: bool, threads: set<Tid>, es: seq<Event>)
    requires |threads| < TWO32 && Always(Step, NoOverflow, Init(set_, threads), es)
    ensures var s := Run(Step, Init(set_, threads), es);
            && s.mem.tokens == One(set_) + s.created - s.consumed && s.consumed <= One(set_) + s.created
            && s.mem.waiters == Count(s.threads, Blocked) + Count(s.threads, AwakeCounted)
  {
    ReachableInv(set_, threads, es);
    SameThreadsAndInitial(Init(set_, threads), es);
  }

  // ----- how many triggers are in flight

  /** The kernel's bit is set, or a thread is about to set it. */
  ghost predicate OneInFlight(s: State) {
    One(s.mem.trigger) + Count(s.threads, Triggering) <= 1
  }

  /** The next instruction decides to trigger: a signal that finds no token, or a chain check that finds
      other waiters. */
  predicate Fires(pc: Pc, m: Shared) {
    || ((pc.SignalCas? || pc.SignalAdd?) && m.tokens == 0)
    || (pc.ChainWaiters? && m.waiters > 1)
  }

  /** It does not do so while a trigger is in flight. */
  ghost predicate FiresAlone(s: State, e: Event) {
    e.t in s.threads && Fires(s.threads[e.t], s.mem) ==> !s.mem.trigger && Count(s.threads, Triggering) == 0
  }

  /** One instruction adds a trigger exactly if it fires, and otherwise at most hands one on. */
  lemma ActFires(pc: Pc, m: Shared, c: Choice)
    ensures var (pc', m') := Act(pc, m, c);
            && (Fires(pc, m) ==> Triggering(pc') && !Triggering(pc) && m'.trigger == m.trigger)
            && (!Fires(pc, m) ==>
                  One(m'.trigger) + One(Triggering(pc')) <= One(m.trigger) + One(Triggering(pc)))
  {
  }

  lemma StepFiresExactly(s: State, e: Event)
    requires OneInFlight(s)
    ensures OneInFlight(Step(s, e)) <==> FiresAlone(s, e)
  {
    if e.t in s.threads {
      ActFires(s.threads[e.t], s.mem, e.c);
      CountUpdate(s.threads, e.t, Act(s.threads[e.t], s.mem, e.c).0, Triggering);
    }
  }

  ghost predicate OneAfter(s: State, e: Event) {
    OneInFlight(Step(s, e))
  }

  /** At most one trigger is in flight throughout a run exactly if no instruction of the run fires while one is. */
  lemma OneInFlightExactly(set_: bool, threads: set<Tid>, es: seq<Event>)
    ensures var s0 := Init(set_, threads);
            && (Always(Step, OneAfter, s0, es) <==> Always(Step, FiresAlone, s0, es))
            && (Always(Step, FiresAlone, s0, es) ==> OneInFlight(Run(Step, s0, es)))
  {
    var s0 := Init(set_, threads);
    CountZero(s0.threads, Triggering);
    forall x, e | OneInFlight(x) ensures OneInFlight(Step(x, e)) <==> FiresAlone(x, e) { StepFiresExactly(x, e); }
    AlwaysAnything(Step, s0, es);
    KeptExactly(Step, Anything, AnyState, OneInFlight, FiresAlone, OneAfter, s0, es);
  }

  /** Threads 0 and 1, and nothing but tokens. */
  predicate Two(s: State, zero: Pc, one: Pc, tokens: Int32) {
    s.threads.Keys == {0, 1} && s.threads[0] == zero && s.threads[1] == one && s.mem == Shared(tokens, 0, false)
  }

  /** A signal creates a token; before it triggers, the token is taken and signalled again. */
  lemma TwoTriggersInFlight() returns (es: seq<Event>)
    ensures var s := Run(Step, Init(false, {0, 1}), es);
            Two(s, Trigger(false), Trigger(false), 1) && !OneInFlight(s)
  {
    var s0 := Init(false, {0, 1});
    var a := [Do(0, Call(Signal)), Do(0, Go), Do(0, Go)];
    var b := [Do(1, Call(TryWait)), Do(1, Go), Do(1, Go)];
    var c := [Do(1, Call(Signal)), Do(1, Go), Do(1, Go)];
    var s1 := Signalled(s0, 0);
    Three(Step, s0, a[0], a[1], a[2]);
    var s2 := Polled(s1);
    Three(Step, s1, b[0], b[1], b[2]);
    var s3 := Signalled(s2, 1);
    Three(Step, s2, c[0], c[1], c[2]);
    es := a + (b + c);
    RunConcat(Step, s1, b, c);
    RunConcat(Step, s0, a, b + c);
    BothTrigger(s3);
  }

  lemma BothTrigger(s: State)
    requires Two(s, Trigger(false), Trigger(false), 1)
    ensures !OneInFlight(s)
  {
    if Count(s.threads, Triggering) <= 1 {
      CountUnique(s.threads, Triggering, 0, 1);
    }
  }

  lemma Signalled(s: State, t: Tid) returns (s': State)
    requires t in s.threads && s.threads[t] == Idle && s.mem == Shared(0, 0, false)
    ensures s' == Step(Step(Step(s, Do(t, Call(Signal))), Do(t, Go)), Do(t, Go))
    ensures s'.threads == s.threads[t := Trigger(false)] && s'.mem == Shared(1, 0, false)
  {
    var s1 := Step(s, Do(t, Call(Signal)));
    assert s1.threads == s.threads[t := SignalLoad] && s1.mem == s.mem;
    var s2 := Step(s1, Do(t, Go));
    assert s2.threads == s.threads[t := SignalCas] && s2.mem == s.mem;
    s' := Step(s2, Do(t, Go));
  }

  lemma Polled(s: State) returns (s': State)
    requires Two(s, Trigger(false), Idle, 1)
    ensures s' == Step(Step(Step(s, Do(1, Call(TryWait))), Do(1, Go)), Do(1, Go))
    ensures Two(s', Trigger(false), Idle, 0)
  {
    var s1 := Step(s, Do(1, Call(TryWait)));
    assert Two(s1, Trigger(false), TakeLoad(Poll), 1);
    var s2 := Step(s1, Do(1, Go));
    assert Two(s2, Trigger(false), TakeCas(Poll, 1), 1);
    s' := Step(s2, Do(1, Go));
  }

  // ----- a blocked waiter is served without anyone else's help

  predicate Ordinary(e: Event) {
    e.c.Go?
  }

  /** A counted waiter on its way to a token. */
  predicate Taking(pc: Pc) {
    (pc.TakeLoad? || pc.TakeCas?) && (pc.phase.First? || pc.phase.After?)
  }

  function Distance(pc: Pc, tokens: int): nat {
    if pc.TakeLoad? then 2 else if pc.TakeCas? && pc.s != tokens then 2 else 1
  }

  lemma TakerApproaches(s: State, w: Tid)
    requires w in s.threads && Taking(s.threads[w]) && LocalOk(s.threads[w]) && s.mem.tokens > 0
    ensures var s' := Step(s, Do(w, Go));
            && w in s'.threads
            && if Distance(s.threads[w], s.mem.tokens) == 1
               then s'.threads[w] == ChainTokens && s'.consumed == s.consumed + 1
               else && Taking(s'.threads[w]) && LocalOk(s'.threads[w])
                    && s'.mem == s.mem && s'.consumed == s.consumed
                    && Distance(s'.threads[w], s.mem.tokens) == 1
  {
  }

  lemma TakerTakes(s: State, w: Tid) returns (es: seq<Event>)
    requires w in s.threads && Taking(s.threads[w]) && LocalOk(s.threads[w]) && s.mem.tokens > 0
    ensures Only(Ordinary, es) && |es| <= 2
    ensures var s' := Run(Step, s, es); w in s'.threads && s'.threads[w] == ChainTokens && s'.consumed == s.consumed + 1
  {
    var e := Do(w, Go);
    TakerApproaches(s, w);
    Prepend(Step, s, e, []);
    es := [e];
    if Distance(s.threads[w], s.mem.tokens) == 2 {
      var s1 := Step(s, e);
      TakerApproaches(s1, w);
      Prepend(Step, s1, e, []);
      Prepend(Step, s, e, [e]);
      es := [e] + [e];
    }
  }

  /** The trigger reaches a blocked waiter. */
  lemma TriggeredTakes(s: State, b: Tid) returns (es: seq<Event>)
    requires b in s.threads && Blocked(s.threads[b]) && s.mem.trigger && s.mem.tokens > 0
    ensures Only(Ordinary, es) && |es| <= 3
    ensures var s' := Run(Step, s, es); b in s'.threads && s'.threads[b] == ChainTokens && s'.consumed == s.consumed + 1
  {
    var rest := TakerTakes(Step(s, Do(b, Go)), b);
    es := [Do(b, Go)] + rest;
    Prepend(Step, s, Do(b, Go), rest);
  }

  lemma TriggererTriggers(s: State, n: Tid, b: Tid)
    requires n in s.threads && b in s.threads && Triggering(s.threads[n]) && Blocked(s.threads[b])
    ensures var s' := Step(s, Do(n, Go));
            && b in s'.threads && Blocked(s'.threads[b])
            && s'.mem == s.mem.(trigger := true) && s'.consumed == s.consumed
  {
  }

  lemma ChainerChains(s: State, n: Tid, b: Tid)
    requires n in s.threads && b in s.threads && Blocked(s.threads[b]) && s.mem.tokens > 0
    requires s.threads[n].ChainTokens? || (s.threads[n].ChainWaiters? && s.mem.waiters > 1)
    ensures var s' := Step(s, Do(n, Go));
            && n in s'.threads && b in s'.threads && Blocked(s'.threads[b])
            && s'.mem == s.mem && s'.consumed == s.consumed
            && s'.threads[n] == if s.threads[n].ChainTokens? then ChainWaiters else Trigger(true)
  {
  }

  /** From every reachable state with a token left and `b` blocked in the kernel, at most six ordinary
      instructions, without a further signal, give a token to a counted waiter. */
  lemma TokenGetsTaken(s: State, b: Tid) returns (w: Tid, es: seq<Event>)
    requires Inv(s) && b in s.threads && Blocked(s.threads[b]) && s.mem.tokens > 0
    ensures Only(Ordinary, es) && |es| <= 6
    ensures w in s.threads && (Blocked(s.threads[w]) || Checking(s.threads[w]))
    ensures var s' := Run(Step, s, es); w in s'.threads && s'.threads[w] == ChainTokens && s'.consumed == s.consumed + 1
  {
    CountHas(s.threads, b, Blocked);
    w := b;
    if s.mem.trigger {
      es := TriggeredTakes(s, b);
    } else if Count(s.threads, Triggering) > 0 {
      var n := CountWitness(s.threads, Triggering);
      es := TriggererServes(s, n, b);
    } else {
      var n := CountWitness(s.threads, Checking);
      if Taking(s.threads[n]) {
        w := n;
        es := TakerTakes(s, n);
      } else {
        CountHas(s.threads, n, AwakeCounted);
        var s1 := Step(s, Do(n, Go));
        ChainerChains(s, n, b);
        if s.threads[n].ChainTokens? {
          var s2 := Step(s1, Do(n, Go));
          ChainerChains(s1, n, b);
          var rest := TriggererServes(s2, n, b);
          es := [Do(n, Go)] + ([Do(n, Go)] + rest);
          Prepend(Step, s1, Do(n, Go), rest);
          Prepend(Step, s, Do(n, Go), [Do(n, Go)] + rest);
        } else {
          var rest := TriggererServes(s1, n, b);
          es := [Do(n, Go)] + rest;
          Prepend(Step, s, Do(n, Go), rest);
        }
      }
    }
  }

  lemma TriggererServes(s: State, n: Tid, b: Tid) returns (es: seq<Event>)
    requires n in s.threads && b in s.threads && Triggering(s.threads[n]) && Blocked(s.threads[b]) && s.mem.tokens > 0
    ensures Only(Ordinary, es) && |es| <= 4
    ensures var s' := Run(Step, s, es); b in s'.threads && s'.threads[b] == ChainTokens && s'.consumed == s.consumed + 1
  {
    TriggererTriggers(s, n, b);
    var rest := TriggeredTakes(Step(s, Do(n, Go)), b);
    es := [Do(n, Go)] + rest;
    Prepend(Step, s, Do(n, Go), rest);
  }
}
