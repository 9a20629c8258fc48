/**
 The parking auto-reset event: one signed word that holds either the stored token or,
 below zero, the lowest slot a waiter took. A waiter is done once the word is above its slot.

 One event executes one atomic instruction of one thread. An event that is not
 enabled leaves the state alone.
 */
module ParkingEvent {
  import opened Runs
  import opened ThreadMaps
  import opened Words

  /** What called the `try_wait` loop. */
  datatype Caller = TryWaiting | Spinning | TimedStart

  /** Where a thread with a slot is: comparing, asleep, or giving up after a timeout. */
  datatype Stage =
    | Compare
    | Wait(cur: Int32)         // entering the futex wait
    | Parked(cur: Int32)
    | ExpiredLoad
    | Undo                     // the fetch_add of a timed-out wait

  datatype Pc =
    | Idle
    | SignalLoad
    | SignalCas(s: Int32)
    | Notify
    | TakeLoad(caller: Caller)
    | TakeCas(caller: Caller, s: Int32)
    | Subtract(timed: bool)
    | Slot(stage: Stage, timed: bool, slot: Int32)

  datatype Operation = Signal | TryWait | WaitFor | TryWaitUntil

  /** `Flake` is a weak CAS that fails or a wait that returns for no reason; `Expire` ends a spin phase or is
      a timeout. */
  datatype Choice = Go | Flake | Expire | Call(op: Operation)
  datatype Event = Do(t: Tid, c: Choice)

  /** History: tokens at the start, tokens signalled since, and waits that completed. */
  datatype State = State(
    backoff: bool, value: Int32, threads: map<Tid, Pc>, initial: nat, signalled: nat, completed: nat)

  function Init(backoff: bool, set_: bool, threads: set<Tid>): State {
    State(backoff, One(set_), map t | t in threads :: Idle, One(set_), 0, 0)
  }

  function Enter(backoff: bool, op: Operation): Pc {
    match op
    case Signal => SignalLoad
    case TryWait => TakeLoad(TryWaiting)
    case WaitFor => if backoff then TakeLoad(Spinning) else Subtract(false)
    case TryWaitUntil => TakeLoad(TimedStart)
  }

  function SignalLoop(s: Int32): Pc {
    if s >= 1 then Idle else SignalCas(s)
  }

  function TakeLoop(caller: Caller, s: Int32, c: Choice): Pc {
    if s > 0 then TakeCas(caller, s)
    else match caller
      case TryWaiting => Idle
      case Spinning => if c.Expire? then Subtract(false) else TakeLoad(Spinning)
      case TimedStart => Subtract(true)
  }

  /** One instruction: the next program counter, the new word, and whether a wait completed. */
  datatype Effect = Effect(pc: Pc, value: Int32, done: bool)

  /** `signal` and `try_wait` */
  function ActTake(pc: Pc, value: Int32, c: Choice): Effect {
    match pc
    case SignalLoad => Effect(SignalLoop(value), value, false)
    case SignalCas(s) =>
      if c.Go? && value == s then Effect(if s < 0 then Notify else Idle, Wrap(s + 1), false)
      else Effect(SignalLoop(value), value, false)
    case TakeLoad(caller) => Effect(TakeLoop(caller, value, c), value, false)
    case TakeCas(caller, s) =>
      if c.Go? && value == s then Effect(Idle, Wrap(s - 1), true)
      else Effect(TakeLoop(caller, value, c), value, false)
    case _ => Effect(pc, value, false)
  }

  /** `wait` and `try_wait_until` from the subtraction on */
  function ActWait(pc: Pc, value: Int32, c: Choice): Effect {
    match pc
    case Subtract(timed) =>
      if value > 0 then Effect(Idle, Wrap(value - 1), true)
      else Effect(Slot(Compare, timed, Wrap(value - 1)), Wrap(value - 1), false)
    case Slot(stage, timed, slot) =>
      (match stage
       case Compare =>
         if value > slot then Effect(Idle, value, true) else Effect(Slot(Wait(value), timed, slot), value, false)
       case Wait(cur) =>
         if c.Expire? && timed then Effect(Slot(ExpiredLoad, timed, slot), value, false)
         else if c.Go? && value == cur then Effect(Slot(Parked(cur), timed, slot), value, false)
         else if c.Go? || c.Flake? then Effect(Slot(Compare, timed, slot), value, false)
         else Effect(pc, value, false)
       case Parked(cur) =>
         if c.Expire? && timed then Effect(Slot(ExpiredLoad, timed, slot), value, false)
         else if c.Flake? then Effect(Slot(Compare, timed, slot), value, false)
         else Effect(pc, value, false)
       case ExpiredLoad =>
         if value > slot then Effect(Idle, value, true) else Effect(Slot(Undo, timed, slot), value, false)
       case Undo => Effect(Idle, Wrap(value + 1), false))
    case _ => Effect(pc, value, false)
  }

  function Act(backoff: bool, pc: Pc, value: Int32, c: Choice): Effect {
    if pc.Idle? then Effect(if c.Call? then Enter(backoff, c.op) else Idle, value, false)
    else if pc.Subtract? || pc.Slot? then ActWait(pc, value, c)
    else ActTake(pc, value, c)
  }

  /** The state after thread `t` performed `f`. */
  function Moved(s: State, t: Tid, f: Effect): State
    requires t in s.threads
  {
    State(s.backoff, f.value, s.threads[t := f.pc], s.initial,
          s.signalled + One(s.threads[t].SignalCas? && f.value != s.value), s.completed + One(f.done))
  }

  /** A woken sleeper goes back to comparing the word. */
  function Woken(pc: Pc): Pc {
    if pc.Slot? && pc.stage.Parked? then pc.(stage := Wait(pc.stage.cur)) else pc
  }

  function Step(s: State, e: Event): State {
    if e.t !in s.threads then s
    else if s.threads[e.t].Notify? then s.(threads := MapAll(s.threads, Woken)[e.t := Idle])
    else Moved(s, e.t, Act(s.backoff, s.threads[e.t], s.value, e.c))
  }

  // ----- classes of program counters

  predicate Waits(pc: Pc) {
    pc.Slot?
  }

  predicate Notifying(pc: Pc) {
    pc.Notify?
  }

  predicate Asleep(pc: Pc) {
    pc.Slot? && pc.stage.Parked?
  }

  predicate Undoing(pc: Pc) {
    pc.Slot? && pc.stage.Undo?
  }

  /** Waiting in slot `h` or above. */
  function From(h: int): Pc -> bool {
    (pc: Pc) => pc.Slot? && pc.slot >= h
  }

  function Above(m: map<Tid, Pc>, h: int): nat {
    Count(m, From(h))
  }

  // ----- the invariant of over-delivery

  /** Were the word raised to any level up to zero, there would still be a thread waiting for every step it is
      below zero. */
  ghost predicate Enough(m: map<Tid, Pc>, value: int) {
    forall h :: value <= h <= 0 ==> EnoughAt(m, h)
  }

  predicate EnoughAt(m: map<Tid, Pc>, h: int) {
    Above(m, h) >= -h
  }

  predicate LocalOk(pc: Pc) {
    && (pc.Slot? ==> pc.slot < 0)
    && (pc.SignalCas? ==> pc.s <= 0)
    && (pc.TakeCas? ==> pc.s > 0)
  }

  ghost predicate LocalsOk(m: map<Tid, Pc>) {
    forall t :: t in m ==> LocalOk(m[t])
  }

  ghost predicate Conserved(s: State) {
    s.value + s.completed + Count(s.threads, Waits) == s.initial + s.signalled
  }

  ghost predicate Inv(s: State) {
    && |s.threads| < TWO31 - 1
    && LocalsOk(s.threads) && Conserved(s) && Enough(s.threads, s.value)
    && s.value + Count(s.threads, Waits) <= 1 + |s.threads|
  }

  /** A timeout may give its token back if there is a waiting thread to spare at every level from the word up
      to its own slot. */
  ghost predicate Harmless(s: State, e: Event) {
    e.t in s.threads && Undoing(s.threads[e.t]) ==>
      forall h :: s.value < h <= s.threads[e.t].slot ==> Above(s.threads, h) > -h
  }

  /** It may do so if no sleeper waits for just that, or a notify is coming that wakes everyone. */
  ghost predicate Considerate(s: State, e: Event) {
    e.t in s.threads && Undoing(s.threads[e.t]) ==>
      Count(s.threads, Notifying) > 0
      || forall t :: t in s.threads && Asleep(s.threads[t]) ==> s.threads[t].slot != s.value
  }

  /** The word is never further below zero than there are waiting threads. */
  lemma EnoughWaiters(m: map<Tid, Pc>, value: int)
    requires Enough(m, value)
    ensures value + Count(m, Waits) >= 0
  {
    if value < 0 {
      assert EnoughAt(m, value);
      SubsetSize(Where(m, From(value)), Where(m, Waits));
    }
  }

  lemma LowerCountsMore(m: map<Tid, Pc>, h: int)
    ensures Above(m, h - 1) >= Above(m, h)
  {
    SubsetSize(Where(m, From(h)), Where(m, From(h - 1)));
  }

  // ----- one instruction

  /** What the executing thread may assume about the counts. */
  ghost predicate Known(pc: Pc, value: Int32, waits: nat, users: nat) {
    && LocalOk(pc) && users < TWO31 - 1
    && 0 <= value + waits <= 1 + users
    && (if Waits(pc) then 1 <= waits <= users else waits < users)
  }

  /** The word and the counts after the instruction. */
  ghost predicate Keeps(pc: Pc, value: Int32, f: Effect, waits: nat, users: nat) {
    var waits' := waits - One(Waits(pc)) + One(Waits(f.pc));
    && f.value + waits' <= 1 + users && LocalOk(f.pc)
    && f.value + One(f.done) + waits' == value + waits + One(pc.SignalCas? && f.value != value)
  }

  lemma TakeKeeps(pc: Pc, value: Int32, c: Choice, waits: nat, users: nat)
    requires Known(pc, value, waits, users) && !pc.Subtract? && !pc.Slot?
    ensures Keeps(pc, value, ActTake(pc, value, c), waits, users)
  {
  }

  lemma WaitKeeps(pc: Pc, value: Int32, c: Choice, waits: nat, users: nat)
    requires Known(pc, value, waits, users) && (pc.Subtract? || pc.Slot?)
    ensures Keeps(pc, value, ActWait(pc, value, c), waits, users)
  {
  }

  /** How the word moves, compared with the slots in use. */
  lemma ActSlots(backoff: bool, pc: Pc, value: Int32, c: Choice)
    requires LocalOk(pc) && -TWO31 < value && (Undoing(pc) ==> value < TWO31 - 1)
    ensures var f := Act(backoff, pc, value, c);
            && (f.pc.Slot? && !pc.Slot? ==> f.value == value - 1 && f.pc.slot == value - 1)
            && (f.pc.Slot? && pc.Slot? ==> f.value == value && f.pc.slot == pc.slot)
            && (!f.pc.Slot? && pc.Slot? ==> if Undoing(pc) then f.value == value + 1 else f.value == value > pc.slot)
            && (!f.pc.Slot? && !pc.Slot? ==> f.value >= value || f.value >= 0)
  {
  }

  /** The instructions that move the word, compared with the slots in use. */
  ghost predicate FitsSlots(m: map<Tid, Pc>, value: int, t: Tid, pc: Pc, value': int)
    requires t in m
  {
    && (pc.Slot? && !m[t].Slot? ==> value' == value - 1 && pc.slot == value - 1)
    && (pc.Slot? && m[t].Slot? ==> value' == value && pc.slot == m[t].slot)
    && (!pc.Slot? && m[t].Slot? && !Undoing(m[t]) ==> value' == value > m[t].slot)
    && (!pc.Slot? && m[t].Slot? && Undoing(m[t]) ==>
          value' == value + 1 && forall h :: value < h <= m[t].slot ==> Above(m, h) > -h)
    && (!pc.Slot? && !m[t].Slot? ==> value' >= value || value' >= 0)
  }

  lemma MovedStaysEnough(m: map<Tid, Pc>, value: int, t: Tid, pc: Pc, value': int)
    requires t in m && Enough(m, value) && LocalOk(m[t]) && LocalOk(pc) && FitsSlots(m, value, t, pc, value')
    ensures Enough(m[t := pc], value')
  {
    var m' := m[t := pc];
    forall h | value' <= h <= 0 ensures EnoughAt(m', h) {
      MovedStaysEnoughAt(m, value, t, pc, value', h);
    }
  }

  lemma MovedStaysEnoughAt(m: map<Tid, Pc>, value: int, t: Tid, pc: Pc, value': int, h: int)
    requires t in m && Enough(m, value) && LocalOk(m[t]) && LocalOk(pc) && FitsSlots(m, value, t, pc, value')
    requires value' <= h <= 0
    ensures EnoughAt(m[t := pc], h)
  {
    CountUpdate(m, t, pc, From(h));
    if h < value && pc.Slot? {
      assert EnoughAt(m, value);
      LowerCountsMore(m, value);
    } else if h >= value {
      assert EnoughAt(m, h);
    }
  }

  lemma ThreadMayAssume(s: State, t: Tid)
    requires Inv(s) && t in s.threads
    ensures Known(s.threads[t], s.value, Count(s.threads, Waits), |s.threads|)
  {
    EnoughWaiters(s.threads, s.value);
    CountAtMost(s.threads, Waits);
    if Waits(s.threads[t]) {
      CountHas(s.threads, t, Waits);
    } else {
      CountUpdate(s.threads, t, Slot(Compare, false, -1), Waits);
      CountAtMost(s.threads[t := Slot(Compare, false, -1)], Waits);
    }
  }

  lemma MovedKeepsInv(s: State, t: Tid, f: Effect)
    requires Inv(s) && t in s.threads && Enough(s.threads[t := f.pc], f.value)
    requires Keeps(s.threads[t], s.value, f, Count(s.threads, Waits), |s.threads|)
    ensures Inv(Moved(s, t, f))
  {
    CountUpdate(s.threads, t, f.pc, Waits);
  }

  lemma WokenEnough(m: map<Tid, Pc>, value: int)
    requires Enough(m, value)
    ensures Enough(MapAll(m, Woken), value)
  {
    forall h | value <= h <= 0 ensures EnoughAt(MapAll(m, Woken), h) {
      assert EnoughAt(m, h);
      WokenAbove(m, h);
    }
  }

  lemma WokenAbove(m: map<Tid, Pc>, h: int)
    ensures Above(MapAll(m, Woken), h) == Above(m, h)
    ensures Count(MapAll(m, Woken), Waits) == Count(m, Waits)
  {
    CountMapAll(m, Woken, From(h), From(h));
    CountMapAll(m, Woken, Waits, Waits);
  }

  lemma NotifyKeepsInv(s: State, t: Tid, c: Choice)
    requires Inv(s) && t in s.threads && s.threads[t].Notify?
    ensures Inv(Step(s, Do(t, c)))
  {
    var m := MapAll(s.threads, Woken);
    CountMapAll(s.threads, Woken, Waits, Waits);
    CountUpdate(m, t, Idle, Waits);
    WokenEnough(s.threads, s.value);
    MovedStaysEnough(m, s.value, t, Idle, s.value);
  }

  lemma StepKeepsInv(s: State, e: Event)
    requires Inv(s) && Harmless(s, e)
    ensures Inv(Step(s, e))
  {
    if e.t in s.threads {
      var pc := s.threads[e.t];
      if pc.Notify? {
        NotifyKeepsInv(s, e.t, e.c);
      } else {
        var f := Act(s.backoff, pc, s.value, e.c);
        ThreadMayAssume(s, e.t);
        if pc.Subtract? || pc.Slot? {
          WaitKeeps(pc, s.value, e.c, Count(s.threads, Waits), |s.threads|);
        } else if !pc.Idle? {
          TakeKeeps(pc, s.value, e.c, Count(s.threads, Waits), |s.threads|);
        }
        ActSlots(s.backoff, pc, s.value, e.c);
        MovedStaysEnough(s.threads, s.value, e.t, f.pc, f.value);
        MovedKeepsInv(s, e.t, f);
      }
    }
  }

  // ----- every run: no over-delivery

  lemma ReachableInv(backoff: bool, set_: bool, threads: set<Tid>, es: seq<Event>)
    requires |threads| < TWO31 - 1 && Always(Step, Harmless, Init(backoff, set_, threads), es)
    ensures Inv(Run(Step, Init(backoff, set_, threads), es))
  {
    var s0 := Init(backoff, set_, threads);
    assert s0.threads.Keys == threads;
    CountZero(s0.threads, Waits);
    forall x, e | Inv(x) && Harmless(x, e) ensures Inv(Step(x, e)) { StepKeepsInv(x, e); }
    Invariant(Step, Harmless, Inv, s0, es);
  }

  /** What no step changes. */
  function Fixed(s: State): (set<Tid>, nat) {
    (s.threads.Keys, s.initial)
  }

  lemma SameThreadsAndInitial(s: State, es: seq<Event>)
    ensures Fixed(Run(Step, s, es)) == Fixed(s)
  {
    forall x: State, e ensures Fixed(Step(x, e)) == Fixed(x) {
      assert Step(x, e).threads.Keys == x.threads.Keys;
    }
    Unchanged(Step, Fixed, s, es);
  }

  /** Completed waits never exceed the tokens there were, in any run whose timeouts are harmless; the
      word is the tokens left minus the threads still waiting. */
  lemma NeverOverDelivers(backoff: bool, set_: bool, threads: set<Tid>, es: seq<Event>)
    requires |threads| < TWO31 - 1 && Always(Step, Harmless, Init(backoff, set_, threads), es)
    ensures var s := Run(Step, Init(backoff, set_, threads), es);
            && s.completed <= One(set_) + s.signalled
            && s.value == One(set_) + s.signalled - s.completed - Count(s.threads, Waits)
  {
    var s := Run(Step, Init(backoff, set_, threads), es);
    ReachableInv(backoff, set_, threads, es);
    SameThreadsAndInitial(Init(backoff, set_, threads), es);
    EnoughWaiters(s.threads, s.value);
  }

  // ----- runs without timed waits

  ghost predicate Untimed(es: seq<Event>) {
    forall e :: e in es ==> e.c != Call(TryWaitUntil)
  }

  predicate NeverTimed(pc: Pc) {
    && (pc.Subtract? || pc.Slot? ==> !pc.timed)
    && (pc.Slot? ==> !pc.stage.ExpiredLoad? && !pc.stage.Undo?)
    && (pc.TakeLoad? || pc.TakeCas? ==> !pc.caller.TimedStart?)
  }

  lemma StepStaysUntimed(s: State, e: Event)
    requires (forall t :: t in s.threads ==> NeverTimed(s.threads[t])) && e.c != Call(TryWaitUntil)
    ensures forall t :: t in Step(s, e).threads ==> NeverTimed(Step(s, e).threads[t])
  {
  }

  lemma {:induction false} UntimedIsGentle(s: State, es: seq<Event>)
    requires Untimed(es) && forall t :: t in s.threads ==> NeverTimed(s.threads[t])
    ensures Always(Step, Harmless, s, es) && Always(Step, Considerate, s, es)
    decreases |es|
  {
    if es != [] {
      assert es[0] in es;
      StepStaysUntimed(s, es[0]);
      UntimedIsGentle(Step(s, es[0]), es[1..]);
    }
  }

  /** With untimed waits only, completed waits never exceed the initial token plus the signals. */
  lemma UntimedNeverOverDelivers(backoff: bool, set_: bool, threads: set<Tid>, es: seq<Event>)
    requires |threads| < TWO31 - 1 && Untimed(es)
    ensures var s := Run(Step, Init(backoff, set_, threads), es); s.completed <= One(set_) + s.signalled
  {
    UntimedIsGentle(Init(backoff, set_, threads), es);
    NeverOverDelivers(backoff, set_, threads, es);
  }

  // ----- nobody sleeps past its own condition

  /** Asleep although the word is already above the thread's slot. */
  predicate Overdue(pc: Pc, value: int) {
    Asleep(pc) && value > pc.slot
  }

  ghost predicate SleepersNotified(s: State) {
    Count(s.threads, Notifying) == 0 ==> forall t :: t in s.threads ==> !Overdue(s.threads[t], s.value)
  }

  /** A sleeper compared a word that was not above its slot. */
  predicate WaitOk(pc: Pc) {
    pc.Slot? && (pc.stage.Wait? || pc.stage.Parked?) ==> pc.stage.cur <= pc.slot
  }

  ghost predicate WaitsOk(s: State) {
    forall t :: t in s.threads ==> LocalOk(s.threads[t]) && WaitOk(s.threads[t])
  }

  /** The `int32` does not wrap around: below, or by a timeout's `fetch_add`. */
  predicate InRange(s: State, e: Event) {
    -TWO31 < s.value && (e.t in s.threads && Undoing(s.threads[e.t]) ==> s.value < TWO31 - 1)
  }

  lemma ActWakes(backoff: bool, pc: Pc, value: Int32, c: Choice)
    requires LocalOk(pc) && WaitOk(pc) && !Undoing(pc) && !pc.Notify? && -TWO31 < value
    ensures var f := Act(backoff, pc, value, c);
            && LocalOk(f.pc) && WaitOk(f.pc) && (f.pc == pc || !Overdue(f.pc, f.value))
            && (f.value <= value || (f.value == value + 1 && (value < 0 ==> f.pc.Notify?)))
  {
  }

  lemma MovedKeepsNotified(s: State, t: Tid, f: Effect)
    requires t in s.threads && !s.threads[t].Notify? && SleepersNotified(s)
    requires f.pc == s.threads[t] || !Overdue(f.pc, f.value)
    requires f.value <= s.value || (f.value == s.value + 1 && (s.value < 0 ==> f.pc.Notify?))
    requires forall x :: x in s.threads ==> LocalOk(s.threads[x])
    ensures SleepersNotified(Moved(s, t, f))
  {
    CountUpdate(s.threads, t, f.pc, Notifying);
  }

  lemma StepKeepsWaitsOk(s: State, e: Event)
    requires WaitsOk(s) && InRange(s, e)
    ensures WaitsOk(Step(s, e))
  {
    if e.t in s.threads && !s.threads[e.t].Notify? && !Undoing(s.threads[e.t]) {
      ActWakes(s.backoff, s.threads[e.t], s.value, e.c);
    }
  }

  /** The timeout's `fetch_add` leaves no sleeper overdue without a notify exactly when it is considerate. */
  lemma UndoKeepsSleepersNotified(s: State, e: Event)
    requires InRange(s, e) && SleepersNotified(s) && e.t in s.threads && Undoing(s.threads[e.t])
    ensures SleepersNotified(Step(s, e)) <==> Considerate(s, e)
  {
    CountUpdate(s.threads, e.t, Idle, Notifying);
    var s' := Step(s, e);
    assert s'.threads == s.threads[e.t := Idle] && s'.value == s.value + 1;
    if t :| t in s.threads && Asleep(s.threads[t]) && s.threads[t].slot == s.value {
      assert Overdue(s'.threads[t], s'.value);
    }
  }

  /** While every overdue sleeper has a notify coming, the one step after which one has not is an
      inconsiderate timeout. */
  lemma StepNotifiesExactly(s: State, e: Event)
    requires WaitsOk(s) && InRange(s, e) && SleepersNotified(s)
    ensures SleepersNotified(Step(s, e)) <==> Considerate(s, e)
  {
    if e.t in s.threads && Undoing(s.threads[e.t]) {
      UndoKeepsSleepersNotified(s, e);
    } else if e.t in s.threads && !s.threads[e.t].Notify? {
      ActWakes(s.backoff, s.threads[e.t], s.value, e.c);
      MovedKeepsNotified(s, e.t, Act(s.backoff, s.threads[e.t], s.value, e.c));
    }
  }

  ghost predicate NotifiedAfter(s: State, e: Event) {
    SleepersNotified(Step(s, e))
  }

  /** Every sleeper whose slot the word has passed has a notify coming throughout a run, harmless timeouts or
      not and with any number of threads, exactly if all timeouts are considerate. */
  lemma SleepersNotifiedExactly(backoff: bool, set_: bool, threads: set<Tid>, es: seq<Event>)
    requires Always(Step, InRange, Init(backoff, set_, threads), es)
    ensures var s0 := Init(backoff, set_, threads);
            && (Always(Step, NotifiedAfter, s0, es) <==> Always(Step, Considerate, s0, es))
            && (Always(Step, Considerate, s0, es) ==> SleepersNotified(Run(Step, s0, es)))
  {
    var s0 := Init(backoff, set_, threads);
    forall x, e | WaitsOk(x) && InRange(x, e) ensures WaitsOk(Step(x, e)) { StepKeepsWaitsOk(x, e); }
    forall x, e | WaitsOk(x) && InRange(x, e) && SleepersNotified(x)
      ensures SleepersNotified(Step(x, e)) <==> Considerate(x, e)
    {
      StepNotifiesExactly(x, e);
    }
    KeptExactly(Step, InRange, WaitsOk, SleepersNotified, Considerate, NotifiedAfter, s0, es);
  }

  /** In a run whose timeouts are considerate, a sleeper whose slot the word has passed has a notify coming. */
  lemma NeverSleepsPastCondition(backoff: bool, set_: bool, threads: set<Tid>, es: seq<Event>, t: Tid)
    requires t in threads && Always(Step, InRange, Init(backoff, set_, threads), es)
    requires Always(Step, Considerate, Init(backoff, set_, threads), es)
    ensures var s := Run(Step, Init(backoff, set_, threads), es);
            t in s.threads && (
            Overdue(s.threads[t], s.value) ==> exists n :: n in s.threads && Notifying(s.threads[n]))
  {
    var s := Run(Step, Init(backoff, set_, threads), es);
    SleepersNotifiedExactly(backoff, set_, threads, es);
    SameThreadsAndInitial(Init(backoff, set_, threads), es);
    assert Fixed(s).0 == threads;
    if Overdue(s.threads[t], s.value) {
      var n := CountWitness(s.threads, Notifying);
    }
  }

  /** Where all timeouts are harmless the word stays in range. */
  lemma HarmlessStaysInRange(backoff: bool, set_: bool, threads: set<Tid>, es: seq<Event>)
    requires |threads| < TWO31 - 1 && Always(Step, Harmless, Init(backoff, set_, threads), es)
    ensures Always(Step, InRange, Init(backoff, set_, threads), es)
  {
    ReachableInv(backoff, set_, threads, []);
    forall x, e | Inv(x) && Harmless(x, e) ensures Inv(Step(x, e)) && InRange(x, e) {
      StepKeepsInv(x, e);
      EnoughWaiters(x.threads, x.value);
      CountAtMost(x.threads, Waits);
      if e.t in x.threads { ThreadMayAssume(x, e.t); }
    }
    AlwaysFollows(Step, Harmless, Inv, InRange, Init(backoff, set_, threads), es);
  }

  /** Where the timeouts are harmless, too, nothing need be assumed of the word. */
  lemma HarmlessNeverSleepsPastCondition(backoff: bool, set_: bool, threads: set<Tid>, es: seq<Event>, t: Tid)
    requires |threads| < TWO31 - 1 && t in threads
    requires Always(Step, Harmless, Init(backoff, set_, threads), es)
    requires Always(Step, Considerate, Init(backoff, set_, threads), es)
    ensures var s := Run(Step, Init(backoff, set_, threads), es);
            t in s.threads && (
            Overdue(s.threads[t], s.value) ==> exists n :: n in s.threads && Notifying(s.threads[n]))
  {
    HarmlessStaysInRange(backoff, set_, threads, es);
    NeverSleepsPastCondition(backoff, set_, threads, es, t);
  }

  /** With untimed waits only, nothing need be assumed. */
  lemma UntimedNeverSleepsPastCondition(backoff: bool, set_: bool, threads: set<Tid>, es: seq<Event>, t: Tid)
    requires |threads| < TWO31 - 1 && Untimed(es) && t in threads
    ensures var s := Run(Step, Init(backoff, set_, threads), es);
            t in s.threads && (
            Overdue(s.threads[t], s.value) ==> exists n :: n in s.threads && Notifying(s.threads[n]))
  {
    UntimedIsGentle(Init(backoff, set_, threads), es);
    HarmlessNeverSleepsPastCondition(backoff, set_, threads, es, t);
  }

  // ----- a waiter whose slot the word has passed gets through

  /** Neither a new call, nor a timeout, nor a return for no reason. */
  predicate Ordinary(e: Event) {
    e.c.Go?
  }

  /** While overdue sleepers have a notify coming, a waiter whose slot the word has passed, unless it is about
      to give its token back, completes by at most three instructions of its own and of one notifier. */
  lemma PassedGetsThrough(s: State, t: Tid) returns (es: seq<Event>)
    requires WaitsOk(s) && SleepersNotified(s)
    requires t in s.threads && s.threads[t].Slot? && s.threads[t].slot < s.value && !Undoing(s.threads[t])
    ensures Only(Ordinary, es) && |es| <= 3
    ensures var s' := Run(Step, s, es);
            t in s'.threads && s'.threads[t].Idle? && s'.value == s.value && s'.completed == s.completed + 1
  {
    if Asleep(s.threads[t]) {
      var n := CountWitness(s.threads, Notifying);
      var s1 := Step(s, Do(n, Go));
      assert s1.threads[t] == Woken(s.threads[t]) && s1.value == s.value && s1.completed == s.completed;
      var rest := AwakeGetsThrough(s1, t);
      es := [Do(n, Go)] + rest;
      Prepend(Step, s, Do(n, Go), rest);
    } else {
      es := AwakeGetsThrough(s, t);
    }
  }

  lemma AwakeGetsThrough(s: State, t: Tid) returns (es: seq<Event>)
    requires t in s.threads && s.threads[t].Slot? && s.threads[t].slot < s.value && WaitOk(s.threads[t])
    requires !Undoing(s.threads[t]) && !Asleep(s.threads[t])
    ensures Only(Ordinary, es) && |es| <= 2
    ensures var s' := Run(Step, s, es);
            t in s'.threads && s'.threads[t].Idle? && s'.value == s.value && s'.completed == s.completed + 1
  {
    var e := Do(t, Go);
    es := [e];
    Prepend(Step, s, e, []);
    if s.threads[t].stage.Wait? {
      Prepend(Step, Step(s, e), e, []);
      Prepend(Step, s, e, [e]);
      es := [e] + [e];
    }
  }

  // ----- exactly when a timeout does no harm

  /** The timeout's `fetch_add` leaves enough threads waiting exactly when it is harmless. */
  lemma UndoKeepsEnough(s: State, e: Event)
    requires Inv(s) && e.t in s.threads && Undoing(s.threads[e.t])
    ensures Enough(Step(s, e).threads, Step(s, e).value) <==> Harmless(s, e)
  {
    ThreadMayAssume(s, e.t);
    if Harmless(s, e) {
      StepKeepsInv(s, e);
    } else {
      var h :| s.value < h <= s.threads[e.t].slot && Above(s.threads, h) <= -h;
      CountUpdate(s.threads, e.t, Idle, From(h));
      assert !EnoughAt(Step(s, e).threads, h);
    }
  }

  ghost predicate InvAfter(s: State, e: Event) {
    Inv(Step(s, e))
  }

  /** The invariant that bounds the deliveries holds throughout a run exactly if all its timeouts are harmless. */
  lemma EnoughExactly(backoff: bool, set_: bool, threads: set<Tid>, es: seq<Event>)
    requires |threads| < TWO31 - 1
    ensures var s0 := Init(backoff, set_, threads);
            Always(Step, InvAfter, s0, es) <==> Always(Step, Harmless, s0, es)
  {
    var s0 := Init(backoff, set_, threads);
    ReachableInv(backoff, set_, threads, []);
    forall x, e | Inv(x) ensures Inv(Step(x, e)) <==> Harmless(x, e) {
      if Harmless(x, e) { StepKeepsInv(x, e); } else { UndoKeepsEnough(x, e); }
    }
    AlwaysAnything(Step, s0, es);
    KeptExactly(Step, Anything, AnyState, Inv, Harmless, InvAfter, s0, es);
  }

  /** An admissible run from `s` to `s'`. */
  ghost predicate Reaches(s: State, es: seq<Event>, s': State) {
    Always(Step, Harmless, s, es) && Run(Step, s, es) == s'
  }

  lemma ReachesFirst(s: State, e: Event, es: seq<Event>, s': State)
    requires Harmless(s, e) && Reaches(Step(s, e), es, s')
    ensures Reaches(s, [e] + es, s')
  {
    AlwaysPrepend(Step, Harmless, s, e, es);
    Prepend(Step, s, e, es);
  }

  lemma ReachesThen(s: State, a: seq<Event>, s1: State, b: seq<Event>, s2: State)
    requires Reaches(s, a, s1) && Reaches(s1, b, s2)
    ensures Reaches(s, a + b, s2)
  {
    AlwaysConcat(Step, Harmless, s, a, b);
    RunConcat(Step, s, a, b);
  }

  /** The state after the wait of `o` completed. */
  function Completed(s: State, o: Tid): State
    requires o in s.threads
  {
    s.(threads := s.threads[o := Idle], completed := s.completed + 1)
  }

  /** A thread whose slot the word has passed completes when it looks. */
  lemma PassedCompletes(s: State, o: Tid) returns (es: seq<Event>)
    requires o in s.threads && s.threads[o].Slot? && s.threads[o].slot < s.value && !Undoing(s.threads[o])
    ensures Reaches(s, es, Completed(s, o))
  {
    var look := Do(o, Go);
    if s.threads[o].stage.Compare? || s.threads[o].stage.ExpiredLoad? {
      es := [look] + [];
      ReachesFirst(s, look, [], Completed(s, o));
    } else {
      var s1 := Step(s, Do(o, Flake));
      assert Completed(s1, o) == Completed(s, o);
      ReachesFirst(s1, look, [], Completed(s, o));
      ReachesFirst(s, Do(o, Flake), [look] + [], Completed(s, o));
      es := [Do(o, Flake)] + ([look] + []);
    }
  }

  /** If it is about to give its token back instead, an idle thread can take a slot and complete with that. */
  lemma NewcomerCompletes(s: State, t: Tid, o: Tid) returns (es: seq<Event>)
    requires -TWO31 < s.value <= 0 && t in s.threads && s.threads[t].Idle?
    requires o in s.threads && Undoing(s.threads[o]) && s.threads[o].slot < s.value
    ensures Reaches(s, es, Completed(s, o))
  {
    var call, go := Do(t, Call(TryWaitUntil)), Do(t, Go);
    var s1 := s.(threads := s.threads[t := TakeLoad(TimedStart)]);
    assert Step(s, call) == s1;
    var s2 := s.(threads := s.threads[t := Subtract(true)]);
    assert Step(s1, go) == s2 by { assert s2.threads == s1.threads[t := Subtract(true)]; }
    var slot := Slot(Compare, true, s.value - 1);
    var s3 := s.(threads := s.threads[t := slot], value := s.value - 1);
    assert Step(s2, go) == s3 by { assert s3.threads == s2.threads[t := slot]; }
    var rest := GiverLetsThrough(s3, t, o);
    var s' := Completed(s, o);
    assert s3.threads[o := Idle][t := Idle] == s'.threads;
    ReachesFirst(s2, go, rest, s');
    ReachesFirst(s1, go, [go] + rest, s');
    ReachesFirst(s, call, [go] + ([go] + rest), s');
    es := [call] + ([go] + ([go] + rest));
  }

  lemma GiverLetsThrough(s: State, t: Tid, o: Tid) returns (es: seq<Event>)
    requires t != o && t in s.threads && s.threads[t] == Slot(Compare, true, s.value) && s.value < 0
    requires o in s.threads && Undoing(s.threads[o]) && s.threads[o].slot <= s.value
    ensures var threads := s.threads[o := Idle][t := Idle];
            Reaches(s, es, s.(threads := threads, value := s.value + 1, completed := s.completed + 1))
  {
    var undo := Do(o, Go);
    var s1 := s.(threads := s.threads[o := Idle], value := s.value + 1);
    assert Step(s, undo) == s1;
    var rest := PassedCompletes(s1, t);
    ReachesFirst(s, undo, rest, Completed(s1, t));
    es := [undo] + rest;
  }

  /** Every thread in a slot below the word gets through. */
  lemma {:induction false} BelowComplete(s: State, t: Tid) returns (es: seq<Event>, s': State)
    requires -TWO31 < s.value <= 0 && t in s.threads && s.threads[t].Idle? && Conserved(s)
    ensures Reaches(s, es, s') && Conserved(s')
    ensures s'.value == s.value && Count(s'.threads, Waits) == Above(s.threads, s.value)
    decreases Count(s.threads, Waits)
  {
    if o :| o in s.threads && s.threads[o].Slot? && s.threads[o].slot < s.value {
      var first;
      if Undoing(s.threads[o]) {
        first := NewcomerCompletes(s, t, o);
      } else {
        first := PassedCompletes(s, o);
      }
      CountHas(s.threads, o, Waits);
      CountUpdate(s.threads, o, Idle, Waits);
      CountUpdate(s.threads, o, Idle, From(s.value));
      var rest;
      rest, s' := BelowComplete(Completed(s, o), t);
      ReachesThen(s, first, Completed(s, o), rest, s');
      es := first + rest;
    } else {
      es, s' := [], s;
      assert Where(s.threads, Waits) == Where(s.threads, From(s.value));
    }
  }

  /** Signals raise the word to any level up to zero. */
  lemma {:induction false} SignalsRaise(s: State, t: Tid, h: int) returns (es: seq<Event>, s': State)
    requires -TWO31 < s.value <= h <= 0 && t in s.threads && s.threads[t].Idle? && Conserved(s)
    ensures Reaches(s, es, s') && Conserved(s')
    ensures s'.value == h && t in s'.threads && s'.threads[t].Idle? && Above(s'.threads, h) == Above(s.threads, h)
    decreases h - s.value
  {
    if s.value == h {
      es, s' := [], s;
    } else {
      var first, s1 := OneSignal(s, t, h);
      var rest;
      rest, s' := SignalsRaise(s1, t, h);
      ReachesThen(s, first, s1, rest, s');
      es := first + rest;
    }
  }

  lemma OneSignal(s: State, t: Tid, h: int) returns (es: seq<Event>, s': State)
    requires -TWO31 < s.value < 0 && t in s.threads && s.threads[t].Idle? && Conserved(s)
    ensures Reaches(s, es, s') && Conserved(s')
    ensures s'.value == s.value + 1 && t in s'.threads && s'.threads[t].Idle?
    ensures Above(s'.threads, h) == Above(s.threads, h)
  {
    var call, go := Do(t, Call(Signal)), Do(t, Go);
    var s1 := s.(threads := s.threads[t := SignalLoad]);
    assert Step(s, call) == s1;
    var s2 := s.(threads := s.threads[t := SignalCas(s.value)]);
    assert Step(s1, go) == s2 by { assert s2.threads == s1.threads[t := SignalCas(s.value)]; }
    var s3 := s.(threads := s.threads[t := Notify], value := s.value + 1, signalled := s.signalled + 1);
    assert Step(s2, go) == s3 by { assert s3.threads == s2.threads[t := Notify]; }
    s' := Step(s3, go);
    SignalCounts(s.threads, t, h);
    ReachesFirst(s3, go, [], s');
    ReachesFirst(s2, go, [go] + [], s');
    ReachesFirst(s1, go, [go] + ([go] + []), s');
    ReachesFirst(s, call, [go] + ([go] + ([go] + [])), s');
    es := [call] + ([go] + ([go] + ([go] + [])));
  }

  lemma SignalCounts(m: map<Tid, Pc>, t: Tid, h: int)
    requires t in m && m[t].Idle?
    ensures var m' := MapAll(m[t := Notify], Woken)[t := Idle];
            Above(m', h) == Above(m, h) && Count(m', Waits) == Count(m, Waits)
  {
    var m1 := m[t := Notify];
    CountUpdate(m, t, Notify, From(h));
    CountUpdate(m, t, Notify, Waits);
    WokenAbove(m1, h);
    CountUpdate(MapAll(m1, Woken), t, Idle, From(h));
    CountUpdate(MapAll(m1, Woken), t, Idle, Waits);
  }

  ghost predicate WithinTokens(s: State) {
    s.completed <= s.initial + s.signalled
  }

  /** After a harmful timeout more waits can complete than there were tokens, though every later timeout is
      harmless: signals raise the word to a level without enough threads above, and all below it complete. */
  lemma HarmfulUndoOverDelivers(s: State, e: Event) returns (es: seq<Event>)
    requires Inv(s) && e.t in s.threads && Undoing(s.threads[e.t]) && !Harmless(s, e)
    ensures Always(Step, Harmless, Step(s, e), es) && !WithinTokens(Run(Step, Step(s, e), es))
  {
    var h :| s.value < h <= s.threads[e.t].slot && Above(s.threads, h) <= -h;
    ThreadMayAssume(s, e.t);
    CountUpdate(s.threads, e.t, Idle, From(h));
    CountUpdate(s.threads, e.t, Idle, Waits);
    var s1 := Step(s, e);
    assert s1.threads == s.threads[e.t := Idle] && s1.value == s.value + 1 && Conserved(s1);
    var raise, s2 := SignalsRaise(s1, e.t, h);
    var drain, s3 := BelowComplete(s2, e.t);
    ReachesThen(s1, raise, s2, drain, s3);
    es := raise + drain;
  }

  /** A timeout's `fetch_add` is harmless exactly if no run after it, its own timeouts harmless, completes more
      waits than there were tokens. */
  lemma UndoSafeExactly(s: State, e: Event)
    requires Inv(s) && e.t in s.threads && Undoing(s.threads[e.t])
    ensures Harmless(s, e) <==>
            forall es :: Always(Step, Harmless, Step(s, e), es) ==> WithinTokens(Run(Step, Step(s, e), es))
  {
    var s1 := Step(s, e);
    if Harmless(s, e) {
      StepKeepsInv(s, e);
      forall x, f | Inv(x) && Harmless(x, f) ensures Inv(Step(x, f)) { StepKeepsInv(x, f); }
      forall es | Always(Step, Harmless, s1, es) ensures WithinTokens(Run(Step, s1, es)) {
        Invariant(Step, Harmless, Inv, s1, es);
        EnoughWaiters(Run(Step, s1, es).threads, Run(Step, s1, es).value);
      }
    } else {
      var es := HarmfulUndoOverDelivers(s, e);
      assert !WithinTokens(Run(Step, s1, es));
    }
  }

  // ----- two runs with a timeout that does harm

  /** Thread 0 and then thread 1 take slots; 0 times out and adds one back; 1 finds the word above its slot. */
  lemma TimeoutCanOverDeliver() returns (es: seq<Event>)
    ensures var s := Run(Step, Init(false, false, {0, 1}), es);
            s.initial == 0 && s.signalled == 0 && s.completed == 1
  {
    var s0 := Init(false, false, {0, 1});
    var a := [Do(0, Call(TryWaitUntil)), Do(0, Go), Do(0, Go)];
    var b := [Do(1, Call(WaitFor)), Do(1, Go), Do(0, Go)];
    var c := [Do(0, Expire), Do(0, Go), Do(0, Go)];
    var s3 := FirstSlot(s0);
    Three(Step, s0, a[0], a[1], a[2]);
    var s6 := SecondSlot(s3);
    Three(Step, s3, b[0], b[1], b[2]);
    var s9 := TimesOut(s6);
    Three(Step, s6, c[0], c[1], c[2]);
    es := (a + (b + c)) + [Do(1, Go)];
    RunConcat(Step, s0, a, b + c);
    RunConcat(Step, s3, b, c);
    Append(Step, s0, a + (b + c), Do(1, Go));
  }

  /** Two threads, no token at the start, no wait completed. */
  predicate Quiet(s: State, zero: Pc, one: Pc, value: int, signalled: nat) {
    && s.threads.Keys == {0, 1} && s.threads[0] == zero && s.threads[1] == one
    && s.value == value && s.initial == s.completed == 0 && s.signalled == signalled && !s.backoff
  }

  lemma FirstSlot(s: State) returns (s': State)
    requires Quiet(s, Idle, Idle, 0, 0)
    ensures s' == Step(Step(Step(s, Do(0, Call(TryWaitUntil))), Do(0, Go)), Do(0, Go))
    ensures Quiet(s', Slot(Compare, true, -1), Idle, -1, 0)
  {
    var s1 := Step(s, Do(0, Call(TryWaitUntil)));
    assert Quiet(s1, TakeLoad(TimedStart), Idle, 0, 0);
    var s2 := Step(s1, Do(0, Go));
    assert Quiet(s2, Subtract(true), Idle, 0, 0);
    s' := Step(s2, Do(0, Go));
  }

  lemma SecondSlot(s: State) returns (s': State)
    requires Quiet(s, Slot(Compare, true, -1), Idle, -1, 0)
    ensures s' == Step(Step(Step(s, Do(1, Call(WaitFor))), Do(1, Go)), Do(0, Go))
    ensures Quiet(s', Slot(Wait(-2), true, -1), Slot(Compare, false, -2), -2, 0)
  {
    var s1 := Step(s, Do(1, Call(WaitFor)));
    assert Quiet(s1, Slot(Compare, true, -1), Subtract(false), -1, 0);
    var s2 := Step(s1, Do(1, Go));
    assert Quiet(s2, Slot(Compare, true, -1), Slot(Compare, false, -2), -2, 0);
    s' := Step(s2, Do(0, Go));
  }

  lemma TimesOut(s: State) returns (s': State)
    requires Quiet(s, Slot(Wait(-2), true, -1), Slot(Compare, false, -2), -2, 0)
    ensures s' == Step(Step(Step(s, Do(0, Expire)), Do(0, Go)), Do(0, Go))
    ensures Quiet(s', Idle, Slot(Compare, false, -2), -1, 0)
  {
    var s1 := Step(s, Do(0, Expire));
    assert Quiet(s1, Slot(ExpiredLoad, true, -1), Slot(Compare, false, -2), -2, 0);
    var s2 := Step(s1, Do(0, Go));
    assert Quiet(s2, Slot(Undo, true, -1), Slot(Compare, false, -2), -2, 0);
    s' := Step(s2, Do(0, Go));
  }

  /** Thread 0 takes a slot; thread 1 signals, then waits in the same slot and sleeps; 0 gives up. Thread 1
      then sleeps past its condition, and no ordinary instruction wakes it. */
  lemma TimeoutCanStrandSleeper() returns (es: seq<Event>)
    ensures var s := Run(Step, Init(false, false, {0, 1}), es);
            && Quiet(s, Idle, Slot(Parked(-1), false, -1), 0, 1) && !SleepersNotified(s)
            && forall more :: Only(Ordinary, more) ==> Run(Step, s, more) == s
  {
    es := StrandingRun();
    var s := Run(Step, Init(false, false, {0, 1}), es);
    assert Overdue(s.threads[1], s.value);
    CountZero(s.threads, Notifying);
    forall more | Only(Ordinary, more) ensures Run(Step, s, more) == s { SleepersStay(s, more); }
  }

  lemma {:induction false} SleepersStay(s: State, es: seq<Event>)
    requires (forall t :: t in s.threads ==> s.threads[t].Idle? || Asleep(s.threads[t])) && Only(Ordinary, es)
    ensures Run(Step, s, es) == s
    decreases |es|
  {
    if es != [] {
      assert Ordinary(es[0]);
      assert Step(s, es[0]).threads == s.threads;
      SleepersStay(Step(s, es[0]), es[1..]);
    }
  }

  lemma StrandingRun() returns (es: seq<Event>)
    ensures Quiet(Run(Step, Init(false, false, {0, 1}), es), Idle, Slot(Parked(-1), false, -1), 0, 1)
  {
    var s0 := Init(false, false, {0, 1});
    var a := [Do(0, Call(TryWaitUntil)), Do(0, Go), Do(0, Go)];
    var b := [Do(1, Call(Signal)), Do(1, Go), Do(1, Go)];
    var c := [Do(1, Go), Do(1, Call(WaitFor)), Do(1, Go)];
    var d := [Do(1, Go), Do(1, Go), Do(0, Go)];
    var e := [Do(0, Expire), Do(0, Go), Do(0, Go)];
    var s1 := FirstSlot(s0);
    Three(Step, s0, a[0], a[1], a[2]);
    var s2 := SignalsOnce(s1);
    Three(Step, s1, b[0], b[1], b[2]);
    var s3 := SameSlot(s2);
    Three(Step, s2, c[0], c[1], c[2]);
    var s4 := Sleeps(s3);
    Three(Step, s3, d[0], d[1], d[2]);
    var s5 := GivesUp(s4);
    Three(Step, s4, e[0], e[1], e[2]);
    es := a + (b + (c + (d + e)));
    RunConcat(Step, s3, d, e);
    RunConcat(Step, s2, c, d + e);
    RunConcat(Step, s1, b, c + (d + e));
    RunConcat(Step, s0, a, b + (c + (d + e)));
  }

  lemma SignalsOnce(s: State) returns (s': State)
    requires Quiet(s, Slot(Compare, true, -1), Idle, -1, 0)
    ensures s' == Step(Step(Step(s, Do(1, Call(Signal))), Do(1, Go)), Do(1, Go))
    ensures Quiet(s', Slot(Compare, true, -1), Notify, 0, 1)
  {
    var s1 := Step(s, Do(1, Call(Signal)));
    assert Quiet(s1, Slot(Compare, true, -1), SignalLoad, -1, 0);
    var s2 := Step(s1, Do(1, Go));
    assert Quiet(s2, Slot(Compare, true, -1), SignalCas(-1), -1, 0);
    s' := Step(s2, Do(1, Go));
  }

  lemma SameSlot(s: State) returns (s': State)
    requires Quiet(s, Slot(Compare, true, -1), Notify, 0, 1)
    ensures s' == Step(Step(Step(s, Do(1, Go)), Do(1, Call(WaitFor))), Do(1, Go))
    ensures Quiet(s', Slot(Compare, true, -1), Slot(Compare, false, -1), -1, 1)
  {
    var s1 := Step(s, Do(1, Go));
    assert Quiet(s1, Slot(Compare, true, -1), Idle, 0, 1);
    var s2 := Step(s1, Do(1, Call(WaitFor)));
    assert Quiet(s2, Slot(Compare, true, -1), Subtract(false), 0, 1);
    s' := Step(s2, Do(1, Go));
  }

  lemma Sleeps(s: State) returns (s': State)
    requires Quiet(s, Slot(Compare, true, -1), Slot(Compare, false, -1), -1, 1)
    ensures s' == Step(Step(Step(s, Do(1, Go)), Do(1, Go)), Do(0, Go))
    ensures Quiet(s', Slot(Wait(-1), true, -1), Slot(Parked(-1), false, -1), -1, 1)
  {
    var s1 := Step(s, Do(1, Go));
    assert Quiet(s1, Slot(Compare, true, -1), Slot(Wait(-1), false, -1), -1, 1);
    var s2 := Step(s1, Do(1, Go));
    assert Quiet(s2, Slot(Compare, true, -1), Slot(Parked(-1), false, -1), -1, 1);
    s' := Step(s2, Do(0, Go));
  }

  lemma GivesUp(s: State) returns (s': State)
    requires Quiet(s, Slot(Wait(-1), true, -1), Slot(Parked(-1), false, -1), -1, 1)
    ensures s' == Step(Step(Step(s, Do(0, Expire)), Do(0, Go)), Do(0, Go))
    ensures Quiet(s', Idle, Slot(Parked(-1), false, -1), 0, 1)
  {
    var s1 := Step(s, Do(0, Expire));
    assert Quiet(s1, Slot(ExpiredLoad, true, -1), Slot(Parked(-1), false, -1), -1, 1);
    var s2 := Step(s1, Do(0, Go));
    assert Quiet(s2, Slot(Undo, true, -1), Slot(Parked(-1), false, -1), -1, 1);
    s' := Step(s2, Do(0, Go));
  }
}
