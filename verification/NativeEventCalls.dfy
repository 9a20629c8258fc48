/** What the callers of the native event get: `NativeEvent` with the observer of `Calls`. */
module NativeEventCalls {
  import opened Calls
  import opened NativeEvent
  import opened Options
  import opened Runs
  import opened ThreadMaps
  import opened Words

  function Threads(s: State): map<Tid, Pc> {
    s.threads
  }

  function Actor(e: Event): Tid {
    e.t
  }

  function CallOf(s: State, e: Event): Option<Operation> {
    if e.c.Call? && e.t in s.threads && s.threads[e.t].Idle? then Some(e.c.op) else None
  }

  /** A `signal` may add nothing if it found no waiter; `try_wait` may fail where it finds no token; and
      `try_wait_for` where it times out, or finds no token after it was woken. */
  predicate Reason(pc: Pc, m: Shared, c: Choice) {
    match pc
    case SignalLoad => m.waiters == 0
    case TakeLoad(phase) => (phase.Poll? || phase == After(true)) && m.tokens <= 0
    case TakeCas(phase, _) => (phase.Poll? || phase == After(true)) && m.tokens <= 0
    case Kevent(timed) => timed && c.Expire?
    case _ => false
  }

  predicate Excuse(s: State, e: Event) {
    e.t in s.threads && Reason(s.threads[e.t], s.mem, e.c)
  }

  /** How a call that was at `pc` returns: a signal with a token added, a wait with a token taken. */
  function Returns(pc: Pc, took: bool): Outcome {
    match pc
    case SignalAdd => Won
    case Trigger(_) => Won
    case SubWaiter(result) => if result then Won else Lost
    case _ => if took then Won else Lost
  }

  function OutcomeOf(s: State, e: Event): Outcome {
    if e.t in s.threads && Step(s, e).threads[e.t].Idle? then
      Returns(s.threads[e.t], Step(s, e).consumed > s.consumed)
    else Inside
  }

  predicate Waits(op: Operation, timed: bool) {
    op == if timed then TryWaitFor else NativeEvent.Wait
  }

  predicate InPhase(op: Operation, phase: Phase) {
    match phase
    case Poll => op == TryWait
    case Fast(timed) => Waits(op, timed)
    case First(timed) => Waits(op, timed)
    case After(timed) => Waits(op, timed)
  }

  /** Where a call of `op` may be. */
  predicate Serves(op: Operation, pc: Pc) {
    match pc
    case SignalLoad => op == Signal
    case SignalCas => op == Signal
    case SignalAdd => op == Signal
    case Trigger(chain) => if chain then op == NativeEvent.Wait || op == TryWaitFor else op == Signal
    case TakeLoad(phase) => InPhase(op, phase)
    case TakeCas(phase, _) => InPhase(op, phase)
    case AddWaiter(timed) => Waits(op, timed)
    case Kevent(timed) => Waits(op, timed)
    case ChainTokens => op == NativeEvent.Wait || op == TryWaitFor
    case ChainWaiters => op == NativeEvent.Wait || op == TryWaitFor
    case SubWaiter(took) => (op == NativeEvent.Wait && took) || op == TryWaitFor
    case Idle => false
  }

  predicate Grants(op: Operation, pc: Pc) {
    pc.Idle?
  }

  predicate Outside(pc: Pc) {
    pc.Idle?
  }

  /** A signal that found no waiter, and a wait that gives up. */
  predicate Excused(pc: Pc) {
    pc.SignalCas? || pc == SubWaiter(false)
  }

  predicate Holds(pc: Pc) {
    false
  }

  predicate CanFail(op: Operation) {
    op != NativeEvent.Wait
  }

  predicate IsSignal(op: Operation) {
    op == Signal
  }

  predicate IsWait(op: Operation) {
    op != Signal
  }

  /** The signal has added its token and has yet to trigger. */
  predicate Added(pc: Pc) {
    pc == Trigger(false)
  }

  /** The wait has its token and has yet to return. */
  predicate Took(pc: Pc) {
    pc.ChainTokens? || pc.ChainWaiters? || pc == Trigger(true) || pc == SubWaiter(true)
  }

  /** Tokens added by signals that have returned. */
  function Signalled(s: State): int {
    s.created - Count(s.threads, Added)
  }

  /** Tokens taken by waits that have returned. */
  function Delivered(s: State): int {
    s.consumed - Count(s.threads, Took)
  }

  function ForSignals(): Interface<State, Event, Pc, Operation> {
    Interface(Step, Threads, Actor, CallOf, Excuse, OutcomeOf, Serves, Grants, Outside, Excused, Holds,
              CanFail, IsSignal, Signalled)
  }

  function ForWaits(): Interface<State, Event, Pc, Operation> {
    Interface(Step, Threads, Actor, CallOf, Excuse, OutcomeOf, Serves, Grants, Outside, Excused, Holds,
              CanFail, IsWait, Delivered)
  }

  /** One instruction of a call of `op`, with the tokens it added by its return. */
  ghost predicate Adds(op: Operation, pc: Pc, m: Shared, r: (Pc, Shared), needed: bool) {
    var outcome := if r.0.Idle? then Returns(pc, pc.TakeCas? && r.1.tokens != m.tokens) else Inside;
    Serving(ForSignals(), op, r.0, outcome, needed,
            One(pc.SignalAdd? || (pc.SignalCas? && r.0.Trigger?)) - One(Added(r.0)) + One(Added(pc)))
  }

  /** The same with the tokens it took. */
  ghost predicate Takes(op: Operation, pc: Pc, m: Shared, r: (Pc, Shared), needed: bool) {
    var took := pc.TakeCas? && r.1.tokens != m.tokens;
    var outcome := if r.0.Idle? then Returns(pc, took) else Inside;
    Serving(ForWaits(), op, r.0, outcome, needed, One(took) - One(Took(r.0)) + One(Took(pc)))
  }

  lemma SignalAdds(op: Operation, pc: Pc, m: Shared, c: Choice)
    requires Serves(op, pc) && Signals(pc)
    ensures Adds(op, pc, m, ActSignal(pc, m), Excused(pc) || Reason(pc, m, c))
  {
  }

  lemma SignalTakes(op: Operation, pc: Pc, m: Shared, c: Choice)
    requires Serves(op, pc) && Signals(pc)
    ensures Takes(op, pc, m, ActSignal(pc, m), Excused(pc) || Reason(pc, m, c))
  {
  }

  /** In the loop of `try_wait`. */
  predicate Tries(pc: Pc) {
    pc.TakeLoad? || pc.TakeCas?
  }

  lemma TryAdds(op: Operation, pc: Pc, m: Shared, c: Choice)
    requires Serves(op, pc) && Tries(pc) && LocalOk(pc)
    ensures Adds(op, pc, m, ActWait(pc, m, c), Reason(pc, m, c))
  {
  }

  lemma BlockAdds(op: Operation, pc: Pc, m: Shared, c: Choice)
    requires Serves(op, pc) && !Tries(pc) && !Signals(pc)
    ensures Adds(op, pc, m, ActWait(pc, m, c), Excused(pc) || Reason(pc, m, c))
  {
  }

  lemma TryTakes(op: Operation, pc: Pc, m: Shared, c: Choice)
    requires Serves(op, pc) && Tries(pc) && LocalOk(pc)
    ensures Takes(op, pc, m, ActWait(pc, m, c), Reason(pc, m, c))
  {
  }

  lemma BlockTakes(op: Operation, pc: Pc, m: Shared, c: Choice)
    requires Serves(op, pc) && !Tries(pc) && !Signals(pc)
    ensures Takes(op, pc, m, ActWait(pc, m, c), Excused(pc) || Reason(pc, m, c))
  {
  }

  lemma EnterServes(op: Operation, m: Shared)
    ensures Adds(op, Idle, m, (Enter(op), m), false) && Takes(op, Idle, m, (Enter(op), m), false)
  {
  }

  lemma ActServes(op: Operation, pc: Pc, m: Shared, c: Choice)
    requires LocalOk(pc) && (Serves(op, pc) || (pc.Idle? && c == Call(op)))
    ensures Adds(op, pc, m, Act(pc, m, c), Excused(pc) || Reason(pc, m, c))
    ensures Takes(op, pc, m, Act(pc, m, c), Excused(pc) || Reason(pc, m, c))
  {
    if pc.Idle? {
      EnterServes(op, m);
    } else if Signals(pc) {
      SignalAdds(op, pc, m, c);
      SignalTakes(op, pc, m, c);
    } else if Tries(pc) {
      TryAdds(op, pc, m, c);
      TryTakes(op, pc, m, c);
    } else {
      BlockAdds(op, pc, m, c);
      BlockTakes(op, pc, m, c);
    }
  }

  ghost predicate LocalsFine(s: State) {
    forall t :: t in s.threads ==> LocalOk(s.threads[t])
  }

  lemma StepGains(s: State, e: Event)
    requires e.t in s.threads
    ensures var pc, s' := s.threads[e.t], Step(s, e);
            var pc' := s'.threads[e.t];
            && Signalled(s') - Signalled(s)
               == One(pc.SignalAdd? || (pc.SignalCas? && pc'.Trigger?)) - One(Added(pc')) + One(Added(pc))
            && Delivered(s') - Delivered(s)
               == One(pc.TakeCas? && s'.mem.tokens != s.mem.tokens) - One(Took(pc')) + One(Took(pc))
  {
    CountUpdate(s.threads, e.t, Step(s, e).threads[e.t], Added);
    CountUpdate(s.threads, e.t, Step(s, e).threads[e.t], Took);
  }

  lemma StepAdds(s: State, e: Event)
    requires LocalsFine(s)
    ensures StepOk(ForSignals(), s, e)
  {
    if e.t in s.threads {
      var pc, r := s.threads[e.t], Act(s.threads[e.t], s.mem, e.c);
      StepGains(s, e);
      forall op | Serves(op, pc) ensures Adds(op, pc, s.mem, r, Excused(pc) || Excuse(s, e)) {
        ActServes(op, pc, s.mem, e.c);
      }
      if pc.Idle? && e.c.Call? { ActServes(e.c.op, pc, s.mem, e.c); }
      MovedIsOk(ForSignals(), s, e);
    }
  }

  lemma StepTakes(s: State, e: Event)
    requires LocalsFine(s)
    ensures StepOk(ForWaits(), s, e)
  {
    if e.t in s.threads {
      var pc, r := s.threads[e.t], Act(s.threads[e.t], s.mem, e.c);
      StepGains(s, e);
      forall op | Serves(op, pc) ensures Takes(op, pc, s.mem, r, Excused(pc) || Excuse(s, e)) {
        ActServes(op, pc, s.mem, e.c);
      }
      if pc.Idle? && e.c.Call? { ActServes(e.c.op, pc, s.mem, e.c); }
      MovedIsOk(ForWaits(), s, e);
    }
  }

  lemma StepStaysFine(s: State, e: Event)
    requires LocalsFine(s)
    ensures LocalsFine(Step(s, e))
  {
  }

  /** In every run, per thread and operation: each call begun has returned once or is under way at one of its own
      places; `wait` never returned without a token; a `signal` that added none found no waiter, a `try_wait`
      that took none found none, and a `try_wait_for` that took none timed out or found none when it was woken;
      the tokens created are those of the signals that returned with one added and of those about to trigger,
      and the tokens consumed those of the waits that returned with one and of those about to return. */
  lemma CallsReturn(set_: bool, threads: set<Tid>, es: seq<Event>, t: Tid, op: Operation)
    ensures var s0 := Init(set_, threads);
            var x, y := WatchedRun(ForSignals(), s0, es), WatchedRun(ForWaits(), s0, es);
            && x.s == y.s == Run(Step, s0, es)
            && x.calls.begun[(t, op)]
               == x.calls.won[(t, op)] + x.calls.lost[(t, op)] + One(t in x.calls.now && x.calls.now[t] == op)
            && x.calls.lost[(t, NativeEvent.Wait)] == 0 && x.calls.unexcused == multiset{}
            && x.s.created == x.calls.gained + Count(x.s.threads, Added)
            && y.s.consumed == y.calls.gained + Count(y.s.threads, Took)
            && (t in x.s.threads ==>
                  if t in x.calls.now then Serves(x.calls.now[t], x.s.threads[t]) else x.s.threads[t].Idle?)
  {
    var s0 := Init(set_, threads);
    forall s, e | LocalsFine(s)
      ensures LocalsFine(Step(s, e)) && StepOk(ForSignals(), s, e) && StepOk(ForWaits(), s, e)
    {
      StepStaysFine(s, e);
      StepAdds(s, e);
      StepTakes(s, e);
    }
    AlwaysAnything(Step, s0, es);
    CountZero(s0.threads, Added);
    CountZero(s0.threads, Took);
    EveryCallIsFair(ForSignals(), Anything, LocalsFine, s0, es);
    EveryCallIsFair(ForWaits(), Anything, LocalsFine, s0, es);
    FairLedger(ForSignals(), WatchedRun(ForSignals(), s0, es), t, op);
    FairLedger(ForSignals(), WatchedRun(ForSignals(), s0, es), t, NativeEvent.Wait);
  }

  // ----- what a signal does

  /** A signal that found a counted waiter adds a token by its next instruction, whatever the counter then is. */
  lemma SignalCountsForWaiter(s: State, t: Tid)
    requires t in s.threads && s.threads[t].SignalLoad? && s.mem.waiters > 0
    ensures var s1 := Step(s, Do(t, Go));
            && t in s1.threads && s1.threads[t].SignalAdd?
            && forall m: Shared :: m.tokens < TWO31 - 1 ==> ActSignal(SignalAdd, m).1.tokens == m.tokens + 1
  {
  }

  /** A signal that returns without a token added found one, so the event was set. */
  lemma UnaddedSignalFoundToken(s: State, e: Event)
    requires Inv(s) && e.t in s.threads && Signals(s.threads[e.t]) && OutcomeOf(s, e).Lost?
    ensures s.mem.tokens > 0 && Step(s, e).mem == s.mem && Step(s, e).created == s.created
  {
  }

  /** A signal, alone, by at most three instructions: with no waiter counted it sets the counter to one if it is
      zero and leaves it otherwise; with one counted it adds one. It triggers exactly if the counter was zero. */
  lemma SignalAlone(s: State, t: Tid) returns (es: seq<Event>)
    requires t in s.threads && s.threads[t].Idle? && 0 <= s.mem.tokens < TWO31 - 1
    ensures |es| <= 3 && forall e :: e in es ==> e == Do(t, Go)
    ensures var s' := Run(Step, Step(s, Do(t, Call(Signal))), es);
            && t in s'.threads && s'.threads[t].Idle?
            && s'.mem.tokens == (if s.mem.waiters == 0 && s.mem.tokens > 0 then s.mem.tokens else s.mem.tokens + 1)
            && s'.mem.trigger == (s.mem.trigger || s.mem.tokens == 0) && s'.mem.waiters == s.mem.waiters
  {
    var e, s1 := Do(t, Go), Step(s, Do(t, Call(Signal)));
    FewSteps(Step, s1, e);
    es := if s.mem.tokens == 0 then [e, e, e] else [e, e];
  }

  // ----- what a wait does

  /** Any wait, alone with a token there, takes it by two instructions and returns. */
  lemma WaitWithToken(s: State, t: Tid, op: Operation) returns (es: seq<Event>)
    requires t in s.threads && s.threads[t].Idle? && op != Signal && s.mem.tokens > 0
    ensures |es| <= 2 && forall e :: e in es ==> e == Do(t, Go)
    ensures var s' := Run(Step, Step(s, Do(t, Call(op))), es);
            && t in s'.threads && s'.threads[t].Idle? && s'.consumed == s.consumed + 1
            && s'.mem == s.mem.(tokens := s.mem.tokens - 1)
  {
    var e, s1 := Do(t, Go), Step(s, Do(t, Call(op)));
    FewSteps(Step, s1, e);
    es := [e, e];
  }

  /** Without one, `try_wait` returns at once, and the other two count themselves and block. */
  lemma WaitWithoutToken(s: State, t: Tid, op: Operation) returns (es: seq<Event>)
    requires t in s.threads && s.threads[t].Idle? && op != Signal && s.mem.tokens == 0
    ensures |es| <= 3 && forall e :: e in es ==> e == Do(t, Go)
    ensures var s' := Run(Step, Step(s, Do(t, Call(op))), es);
            && t in s'.threads && s'.consumed == s.consumed
            && (if op == TryWait then s'.threads[t].Idle? && s'.mem == s.mem
                else s'.threads[t] == Kevent(op == TryWaitFor) && s'.mem == s.mem.(waiters := Add(s.mem.waiters, 1)))
  {
    var e, s1 := Do(t, Go), Step(s, Do(t, Call(op)));
    FewSteps(Step, s1, e);
    es := if op == TryWait then [e] else [e, e, e];
  }

  /** A wait that has its token returns by at most four instructions, takes itself off the count, and triggers
      exactly if tokens remain while others are counted. */
  lemma TookReturns(s: State, t: Tid) returns (es: seq<Event>)
    requires t in s.threads && s.threads[t].ChainTokens?
    ensures |es| <= 4 && forall e :: e in es ==> e == Do(t, Go)
    ensures var s' := Run(Step, s, es);
            && t in s'.threads && s'.threads[t].Idle? && s'.mem.tokens == s.mem.tokens
            && s'.mem.waiters == Sub(s.mem.waiters, 1)
            && s'.mem.trigger == (s.mem.trigger || (s.mem.tokens > 0 && s.mem.waiters > 1))
  {
    var e := Do(t, Go);
    FewSteps(Step, s, e);
    es := if s.mem.tokens <= 0 then [e, e] else if s.mem.waiters <= 1 then [e, e, e] else [e, e, e, e];
  }

  /** A timed wait whose time is up takes itself off the count and returns without a token. */
  lemma TimeoutReturns(s: State, t: Tid)
    requires t in s.threads && s.threads[t] == Kevent(true)
    ensures var s1 := Step(s, Do(t, Expire));
            var s2 := Step(s1, Do(t, Go));
            && t in s2.threads && s2.threads[t].Idle? && s2.consumed == s.consumed
            && t in s1.threads && OutcomeOf(s1, Do(t, Go)).Lost?
            && s2.mem == s.mem.(waiters := Sub(s.mem.waiters, 1))
  {
  }

  /** A timed wait that was woken and finds no token does not wait again. */
  lemma WokenTooLateReturns(s: State, t: Tid)
    requires t in s.threads && s.threads[t] == TakeLoad(NativeEvent.After(true)) && s.mem.tokens <= 0
    ensures var s' := Run(Step, s, [Do(t, Go), Do(t, Go)]);
            && t in s'.threads && s'.threads[t].Idle? && s'.consumed == s.consumed
            && s'.mem == s.mem.(waiters := Sub(s.mem.waiters, 1))
  {
    FewSteps(Step, s, Do(t, Go));
  }

  /** An untimed one does. */
  lemma WokenTooLateBlocks(s: State, t: Tid)
    requires t in s.threads && s.threads[t] == TakeLoad(NativeEvent.After(false)) && s.mem.tokens <= 0
    ensures var s' := Run(Step, s, [Do(t, Go), Do(t, Go)]);
            t in s'.threads && s'.threads[t] == Kevent(false) && s'.mem == s.mem && s'.consumed == s.consumed
  {
    FewSteps(Step, s, Do(t, Go));
  }

  /** A blocked wait is let go by the trigger, which it clears, and by nothing else but a timeout or, untimed, for
      no reason. */
  lemma KeventTakesTrigger(s: State, t: Tid, c: Choice)
    requires t in s.threads && s.threads[t].Kevent?
    ensures var pc, s' := s.threads[t], Step(s, Do(t, c));
            && t in s'.threads
            && (c.Go? ==> s'.mem == s.mem.(trigger := false)
                          && s'.threads[t] == if s.mem.trigger then TakeLoad(NativeEvent.After(pc.timed)) else pc)
            && (!c.Go? ==> s'.mem == s.mem)
            && (s'.threads[t] != pc ==>
                  (c.Go? && s.mem.trigger) || (c.Flake? && !pc.timed) || (c.Expire? && pc.timed))
  {
  }
}
