/** What the callers of the parking event get: `ParkingEvent` with the observer of `Calls`. */
module ParkingEventCalls {
  import opened Calls
  import opened Options
  import opened ParkingEvent
  import opened Runs
  import opened ThreadMaps
  import opened Words

  function Threads(s: State): map<Tid, Pc> {
    s.threads
  }

  function Actor(e: Event): Tid {
    e.t
  }

  function CallOf(s: State, e: Event): Option<Operation> {
    if e.c.Call? && e.t in s.threads && s.threads[e.t].Idle? then Some(e.c.op) else None
  }

  /** A `signal` may add nothing where it finds the event set, `try_wait` may fail where it finds it unset, and a
      timed wait where it times out. */
  predicate Reason(pc: Pc, value: Int32, c: Choice) {
    match pc
    case SignalLoad => value >= 1
    case SignalCas(_) => value >= 1
    case TakeLoad(caller) => caller.TryWaiting? && value <= 0
    case TakeCas(caller, _) => caller.TryWaiting? && value <= 0
    case Slot(stage, timed, _) => timed && (stage.Wait? || stage.Parked?) && c.Expire?
    case _ => false
  }

  predicate Excuse(s: State, e: Event) {
    e.t in s.threads && Reason(s.threads[e.t], s.value, e.c)
  }

  /** How a call that was at `pc` returns: a signal with a token added, a wait with one taken. */
  function Returns(pc: Pc, changed: bool): Outcome {
    if pc.Notify? || changed then Won else Lost
  }

  function OutcomeOf(s: State, e: Event): Outcome {
    if e.t in s.threads && Step(s, e).threads[e.t].Idle? then
      Returns(s.threads[e.t], Step(s, e).completed > s.completed || Step(s, e).signalled > s.signalled)
    else Inside
  }

  /** Where a call of `op` may be. */
  predicate Serves(op: Operation, pc: Pc) {
    match pc
    case SignalLoad => op == Signal
    case SignalCas(_) => op == Signal
    case Notify => op == Signal
    case TakeLoad(caller) => CalledBy(op, caller)
    case TakeCas(caller, _) => CalledBy(op, caller)
    case Subtract(timed) => op == if timed then TryWaitUntil else WaitFor
    case Slot(stage, timed, _) =>
      if timed then op == TryWaitUntil else op == WaitFor && !stage.ExpiredLoad? && !stage.Undo?
    case Idle => false
  }

  predicate CalledBy(op: Operation, caller: Caller) {
    match caller
    case TryWaiting => op == TryWait
    case Spinning => op == WaitFor
    case TimedStart => op == TryWaitUntil
  }

  predicate Grants(op: Operation, pc: Pc) {
    pc.Idle?
  }

  predicate Outside(pc: Pc) {
    pc.Idle?
  }

  predicate Excused(pc: Pc) {
    pc.Slot? && (pc.stage.ExpiredLoad? || pc.stage.Undo?)
  }

  predicate Holds(pc: Pc) {
    false
  }

  predicate CanFail(op: Operation) {
    op != WaitFor
  }

  predicate IsSignal(op: Operation) {
    op == Signal
  }

  predicate IsWait(op: Operation) {
    op != Signal
  }

  /** Tokens added by signals that have returned. */
  function Signalled(s: State): int {
    s.signalled - Count(s.threads, Notifying)
  }

  function Completed(s: State): int {
    s.completed
  }

  function ForSignals(): Interface<State, Event, Pc, Operation> {
    Interface(Step, Threads, Actor, CallOf, Excuse, OutcomeOf, Serves, Grants, Outside, Excused, Holds,
              CanFail, IsSignal, Signalled)
  }

  function ForWaits(): Interface<State, Event, Pc, Operation> {
    Interface(Step, Threads, Actor, CallOf, Excuse, OutcomeOf, Serves, Grants, Outside, Excused, Holds,
              CanFail, IsWait, Completed)
  }

  /** One instruction of a call of `op`. */
  ghost predicate Does(op: Operation, pc: Pc, value: Int32, f: Effect, needed: bool) {
    var added := pc.SignalCas? && f.value != value;
    var outcome := if f.pc.Idle? then Returns(pc, f.done || added) else Inside;
    && Serving(ForSignals(), op, f.pc, outcome, needed, One(added) - One(f.pc.Notify?) + One(pc.Notify?))
    && Serving(ForWaits(), op, f.pc, outcome, needed, One(f.done))
  }

  lemma TakeDoes(op: Operation, pc: Pc, value: Int32, c: Choice)
    requires Serves(op, pc) && !pc.Subtract? && !pc.Slot? && !pc.Notify? && LocalOk(pc)
    ensures Does(op, pc, value, ActTake(pc, value, c), Reason(pc, value, c))
  {
  }

  lemma WaitDoes(op: Operation, pc: Pc, value: Int32, c: Choice)
    requires Serves(op, pc) && (pc.Subtract? || pc.Slot?)
    ensures Does(op, pc, value, ActWait(pc, value, c), Excused(pc) || Reason(pc, value, c))
  {
  }

  lemma ActDoes(backoff: bool, op: Operation, pc: Pc, value: Int32, c: Choice)
    requires LocalOk(pc) && !pc.Notify? && (Serves(op, pc) || (pc.Idle? && c == Call(op)))
    ensures Does(op, pc, value, Act(backoff, pc, value, c), Excused(pc) || Reason(pc, value, c))
  {
    if pc.Subtract? || pc.Slot? {
      WaitDoes(op, pc, value, c);
    } else if !pc.Idle? {
      TakeDoes(op, pc, value, c);
    }
  }

  lemma StepGains(s: State, e: Event)
    requires e.t in s.threads && !s.threads[e.t].Notify?
    ensures var pc, f := s.threads[e.t], Act(s.backoff, s.threads[e.t], s.value, e.c);
            && Signalled(Step(s, e)) - Signalled(s)
               == One(pc.SignalCas? && f.value != s.value) - One(f.pc.Notify?) + One(pc.Notify?)
            && Completed(Step(s, e)) - Completed(s) == One(f.done)
  {
    CountUpdate(s.threads, e.t, Step(s, e).threads[e.t], Notifying);
  }

  lemma WokenAlike(pc: Pc)
    ensures Alike(ForSignals(), pc, Woken(pc)) && Alike(ForWaits(), pc, Woken(pc))
  {
    assert forall op :: Serves(op, Woken(pc)) == Serves(op, pc);
  }

  lemma NotifyGains(s: State, e: Event)
    requires e.t in s.threads && s.threads[e.t].Notify?
    ensures Signalled(Step(s, e)) - Signalled(s) == 1 && Completed(Step(s, e)) == Completed(s)
  {
    var m := MapAll(s.threads, Woken);
    CountMapAll(s.threads, Woken, Notifying, Notifying);
    CountUpdate(m, e.t, Idle, Notifying);
  }

  lemma NotifySignals(s: State, e: Event)
    requires e.t in s.threads && s.threads[e.t].Notify?
    ensures StepOk(ForSignals(), s, e)
  {
    NotifyGains(s, e);
    forall u | u in s.threads && u != e.t ensures Alike(ForSignals(), s.threads[u], Step(s, e).threads[u]) {
      WokenAlike(s.threads[u]);
    }
    forall op | Serves(op, Notify) ensures CallOk(ForSignals(), s, e, op, false) {}
  }

  lemma NotifyWaits(s: State, e: Event)
    requires e.t in s.threads && s.threads[e.t].Notify?
    ensures StepOk(ForWaits(), s, e)
  {
    NotifyGains(s, e);
    forall u | u in s.threads && u != e.t ensures Alike(ForWaits(), s.threads[u], Step(s, e).threads[u]) {
      WokenAlike(s.threads[u]);
    }
    forall op | Serves(op, Notify) ensures CallOk(ForWaits(), s, e, op, false) {}
  }

  lemma StepDoes(s: State, e: Event)
    requires LocalsOk(s.threads)
    ensures StepOk(ForSignals(), s, e) && StepOk(ForWaits(), s, e)
  {
    if e.t in s.threads && s.threads[e.t].Notify? {
      NotifySignals(s, e);
      NotifyWaits(s, e);
    } else if e.t in s.threads {
      var pc, f := s.threads[e.t], Act(s.backoff, s.threads[e.t], s.value, e.c);
      StepGains(s, e);
      forall op | Serves(op, pc) ensures Does(op, pc, s.value, f, Excused(pc) || Excuse(s, e)) {
        ActDoes(s.backoff, op, pc, s.value, e.c);
      }
      if pc.Idle? && e.c.Call? { ActDoes(s.backoff, e.c.op, pc, s.value, e.c); }
      MovedIsOk(ForSignals(), s, e);
      MovedIsOk(ForWaits(), s, e);
    }
  }

  ghost predicate Fine(s: State) {
    LocalsOk(s.threads) && WaitsOk(s)
  }

  /** In every run without wrap-around, per thread and operation: each call begun has returned once or is under
      way at one of its own places; `wait` never returned without a token; a `signal` that added none found the
      event set, a `try_wait` that took none found it unset, and a timed wait that took none timed out; the
      tokens signalled are those of the signals that returned with one added and of those about to notify, and
      the waits completed are the calls that returned with one. */
  lemma CallsReturn(backoff: bool, set_: bool, threads: set<Tid>, es: seq<Event>, t: Tid, op: Operation)
    requires Always(Step, InRange, Init(backoff, set_, threads), es)
    ensures var s0 := Init(backoff, set_, threads);
            var x, y := WatchedRun(ForSignals(), s0, es), WatchedRun(ForWaits(), s0, es);
            && x.s == y.s == Run(Step, s0, es)
            && x.calls.begun[(t, op)]
               == x.calls.won[(t, op)] + x.calls.lost[(t, op)] + One(t in x.calls.now && x.calls.now[t] == op)
            && x.calls.lost[(t, WaitFor)] == 0 && x.calls.unexcused == multiset{}
            && x.s.signalled == x.calls.gained + Count(x.s.threads, Notifying)
            && y.s.completed == y.calls.gained
            && (t in x.s.threads ==>
                  if t in x.calls.now then Serves(x.calls.now[t], x.s.threads[t]) else x.s.threads[t].Idle?)
  {
    var s0 := Init(backoff, set_, threads);
    forall s, e | Fine(s) && InRange(s, e)
      ensures Fine(Step(s, e)) && StepOk(ForSignals(), s, e) && StepOk(ForWaits(), s, e)
    {
      StepKeepsWaitsOk(s, e);
      StepDoes(s, e);
    }
    CountZero(s0.threads, Notifying);
    EveryCallIsFair(ForSignals(), InRange, Fine, s0, es);
    EveryCallIsFair(ForWaits(), InRange, Fine, s0, es);
    FairLedger(ForSignals(), WatchedRun(ForSignals(), s0, es), t, op);
    FairLedger(ForSignals(), WatchedRun(ForSignals(), s0, es), t, WaitFor);
  }

  // ----- each operation, alone

  /** A signal returns without adding a token only from a set event. */
  lemma UnaddedSignalFoundSet(s: State, e: Event)
    requires e.t in s.threads && (s.threads[e.t].SignalLoad? || s.threads[e.t].SignalCas?)
    requires Step(s, e).threads[e.t].Idle? && Step(s, e).signalled == s.signalled
    ensures s.value >= 1
  {
  }

  predicate AboutToNotify(s: State, t: Tid) {
    t in s.threads && s.threads[t].Notify?
  }

  /** A signal adds one to a word below one, leaves any other, and notifies exactly if the word was negative. */
  lemma SignalAlone(s: State, t: Tid) returns (es: seq<Event>)
    requires t in s.threads && s.threads[t].Idle?
    ensures |es| <= 3 && forall e :: e in es ==> e == Do(t, Go)
    ensures var s' := Run(Step, Step(s, Do(t, Call(Signal))), es);
            && t in s'.threads && s'.threads[t].Idle?
            && s'.value == (if s.value >= 1 then s.value else s.value + 1)
            && s'.signalled == s.signalled + One(s.value < 1)
            && (s.value < 0 ==> |es| == 3 && AboutToNotify(Run(Step, Step(s, Do(t, Call(Signal))), es[..2]), t))
  {
    var e, s1 := Do(t, Go), Step(s, Do(t, Call(Signal)));
    FewSteps(Step, s1, e);
    if s.value >= 1 {
      es := [e];
    } else if s.value >= 0 {
      es := [e, e];
    } else {
      es := [e, e, e];
      assert es[..2] == [e, e];
    }
  }

  /** Any wait, alone with the event set, takes the token by at most two instructions and returns. */
  lemma WaitWithToken(s: State, t: Tid, op: Operation) returns (es: seq<Event>)
    requires t in s.threads && s.threads[t].Idle? && op != Signal && s.value > 0
    ensures |es| <= 2 && forall e :: e in es ==> e == Do(t, Go)
    ensures var s' := Run(Step, Step(s, Do(t, Call(op))), es);
            && t in s'.threads && s'.threads[t].Idle? && s'.value == s.value - 1 && s'.completed == s.completed + 1
  {
    var e, s1 := Do(t, Go), Step(s, Do(t, Call(op)));
    FewSteps(Step, s1, e);
    es := if op == WaitFor && !s.backoff then [e] else [e, e];
  }

  /** `try_wait` on an unset event returns at once and changes nothing. */
  lemma TryWaitWithoutToken(s: State, t: Tid)
    requires t in s.threads && s.threads[t].Idle? && s.value <= 0
    ensures var s1 := Step(s, Do(t, Call(TryWait)));
            var s' := Step(s1, Do(t, Go));
            && t in s'.threads && s'.threads[t].Idle? && s'.value == s.value && s'.completed == s.completed
  {
  }

  /** A wait that is past its spin phase takes the next slot below an unset word, and sleeps in it. */
  lemma WaitWithoutToken(s: State, t: Tid, timed: bool) returns (es: seq<Event>)
    requires t in s.threads && s.threads[t] == Subtract(timed) && -TWO31 < s.value <= 0
    ensures |es| <= 3 && forall e :: e in es ==> e == Do(t, Go)
    ensures var s' := Run(Step, s, es);
            && t in s'.threads && s'.threads[t] == Slot(Parked(s.value - 1), timed, s.value - 1)
            && s'.value == s.value - 1 && s'.completed == s.completed
  {
    var e := Do(t, Go);
    FewSteps(Step, s, e);
    es := [e, e, e];
  }

  /** A timed wait whose time is up completes if the word has passed its slot, and otherwise gives its token back
      and returns without. */
  lemma TimeoutReturns(s: State, t: Tid) returns (es: seq<Event>)
    requires t in s.threads && s.threads[t].Slot? && s.threads[t].timed && s.value < TWO31 - 1
    requires s.threads[t].stage.Wait? || s.threads[t].stage.Parked?
    ensures |es| <= 2 && forall e :: e in es ==> e == Do(t, Go)
    ensures var s' := Run(Step, Step(s, Do(t, Expire)), es);
            && t in s'.threads && s'.threads[t].Idle?
            && (if s.value > s.threads[t].slot then s'.completed == s.completed + 1 && s'.value == s.value
                else s'.completed == s.completed && s'.value == s.value + 1)
  {
    var e, s1 := Do(t, Go), Step(s, Do(t, Expire));
    FewSteps(Step, s1, e);
    es := if s.value > s.threads[t].slot then [e] else [e, e];
  }

  /** With a spin phase, an untimed wait takes a slot only when that is over. */
  lemma SpinsBeforeWaiting(s: State, e: Event)
    requires s.backoff && e.t in s.threads && e.t in Step(s, e).threads
    requires Step(s, e).threads[e.t] == Subtract(false) && !s.threads[e.t].Subtract?
    ensures (s.threads[e.t].TakeLoad? || s.threads[e.t].TakeCas?) && s.value <= 0 && e.c.Expire?
  {
  }

  /** The spin phase of an unset event ends by taking a slot. */
  lemma SpinEndsInSlot(s: State, t: Tid)
    requires t in s.threads && s.threads[t] == TakeLoad(Spinning) && s.value <= 0
    ensures var s' := Step(s, Do(t, Expire)); t in s'.threads && s'.threads[t] == Subtract(false) && s'.value == s.value
  {
  }
}
