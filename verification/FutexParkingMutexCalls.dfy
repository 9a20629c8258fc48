/** What the callers of the parking mutex get over the real waits: `FutexParkingMutex` with the observer of `Calls`. */
module FutexParkingMutexCalls {
  import opened Calls
  import F = FutexParkingMutex
  import P = ParkingMutex
  import PC = ParkingMutexCalls
  import opened Options
  import opened Runs
  import opened ThreadMaps

  function Threads(s: F.State): map<Tid, F.Pc> {
    s.threads
  }

  function Actor(e: F.Event): Tid {
    e.t
  }

  /** The state of the machine in which waiting is one step. */
  function Parking(s: F.State): P.State {
    P.State(s.variant, s.word, MapAll(s.threads, F.Abs), [])
  }

  function CallOf(s: F.State, e: F.Event): Option<P.Operation> {
    PC.CallOf(Parking(s), F.Coarse(s, e))
  }

  predicate Excuse(s: F.State, e: F.Event) {
    PC.Excuse(Parking(s), F.Coarse(s, e))
  }

  function OutcomeOf(s: F.State, e: F.Event): Outcome {
    PC.OutcomeOf(Parking(s), F.Coarse(s, e))
  }

  predicate Holds(pc: F.Pc) {
    P.Holds(F.Abs(pc))
  }

  predicate Serves(op: P.Operation, pc: F.Pc) {
    PC.Serves(op, F.Abs(pc))
  }

  predicate Grants(op: P.Operation, pc: F.Pc) {
    PC.Grants(op, F.Abs(pc))
  }

  predicate Outside(pc: F.Pc) {
    PC.Outside(F.Abs(pc))
  }

  predicate GivingUp(pc: F.Pc) {
    PC.GivingUp(F.Abs(pc))
  }

  predicate Gains(op: P.Operation) {
    false
  }

  function Gained(s: F.State): int {
    0
  }

  function Mutex(): Interface<F.State, F.Event, F.Pc, P.Operation> {
    Interface(F.Step, Threads, Actor, CallOf, Excuse, OutcomeOf, Serves, Grants, Outside, GivingUp, Holds,
              PC.CanFail, Gains, Gained)
  }

  ghost predicate AllOk(s: F.State) {
    forall t :: t in s.threads ==> F.Ok(s.threads[t])
  }

  /** The step amounts to one of the parking machine, and so do its threads. */
  lemma StepParks(s: F.State, e: F.Event)
    requires AllOk(s)
    ensures AllOk(F.Step(s, e))
    ensures P.Step(Parking(s), F.Coarse(s, e)).threads == MapAll(F.Step(s, e).threads, F.Abs)
  {
    F.StepMatches(s, Parking(s), e);
  }

  /** What the parking machine does to a call, this one does. */
  lemma CallParks(s: F.State, e: F.Event, op: P.Operation, needed: bool)
    requires AllOk(s) && e.t in s.threads
    requires CallOk(PC.Mutex(), Parking(s), F.Coarse(s, e), op, needed)
    ensures CallOk(Mutex(), s, e, op, needed)
  {
    StepParks(s, e);
    assert e.t in MapAll(F.Step(s, e).threads, F.Abs);
  }

  lemma OthersAlike(s: F.State, e: F.Event, u: Tid)
    requires AllOk(s) && u in s.threads && u != e.t && StepOk(PC.Mutex(), Parking(s), F.Coarse(s, e))
    ensures u in F.Step(s, e).threads && Alike(Mutex(), s.threads[u], F.Step(s, e).threads[u])
  {
    StepParks(s, e);
    var p := Parking(s);
    assert u in p.threads;
    assert u in MapAll(F.Step(s, e).threads, F.Abs);
    assert Alike(PC.Mutex(), p.threads[u], P.Step(p, F.Coarse(s, e)).threads[u]);
  }

  lemma RestParks(s: F.State, e: F.Event)
    requires AllOk(s) && e.t in s.threads && StepOk(PC.Mutex(), Parking(s), F.Coarse(s, e))
    requires Outside(s.threads[e.t]) && CallOf(s, e).None?
    ensures e.t in F.Step(s, e).threads
            && Resting(Mutex(), s.threads[e.t], F.Step(s, e).threads[e.t], 0)
  {
    StepParks(s, e);
    assert e.t in Parking(s).threads && e.t in MapAll(F.Step(s, e).threads, F.Abs);
  }

  lemma SameThreads(s: F.State, e: F.Event)
    ensures F.Step(s, e).threads.Keys == s.threads.Keys
  {
  }

  lemma StepServes(s: F.State, e: F.Event)
    requires AllOk(s)
    ensures StepOk(Mutex(), s, e)
  {
    SameThreads(s, e);
    PC.StepServes(Parking(s), F.Coarse(s, e));
    forall u | u in s.threads && u != e.t ensures Alike(Mutex(), s.threads[u], F.Step(s, e).threads[u]) {
      OthersAlike(s, e, u);
    }
    if e.t in s.threads {
      var pc := s.threads[e.t];
      forall op | Serves(op, pc) ensures CallOk(Mutex(), s, e, op, GivingUp(pc)) { CallParks(s, e, op, GivingUp(pc)); }
      if Outside(pc) && CallOf(s, e).Some? {
        CallParks(s, e, CallOf(s, e).value, false);
      } else if Outside(pc) {
        RestParks(s, e);
      }
    }
  }

  /** In every run over the real waits, too, each call begun has returned once or is under way at one of its own
      places, inside a wait or not; `lock` never returned without the lock; and every other call that did met a
      word that is not zero, or a timeout. */
  lemma CallsReturn(variant: P.Variant, threads: set<Tid>, es: seq<F.Event>, t: Tid, op: P.Operation)
    ensures var x := WatchedRun(Mutex(), F.Init(variant, threads), es);
            && x.s == Run(F.Step, F.Init(variant, threads), es)
            && x.calls.begun[(t, op)]
               == x.calls.won[(t, op)] + x.calls.lost[(t, op)] + One(t in x.calls.now && x.calls.now[t] == op)
            && x.calls.lost[(t, P.Lock)] == 0 && x.calls.unexcused == multiset{}
            && (t in x.s.threads ==>
                  if t in x.calls.now then Serves(x.calls.now[t], x.s.threads[t]) else Outside(x.s.threads[t]))
  {
    var s0 := F.Init(variant, threads);
    forall s, e | AllOk(s) ensures AllOk(F.Step(s, e)) && StepOk(Mutex(), s, e) {
      StepParks(s, e);
      StepServes(s, e);
    }
    AlwaysAnything(F.Step, s0, es);
    EveryCallIsFair(Mutex(), Anything, AllOk, s0, es);
    FairLedger(Mutex(), WatchedRun(Mutex(), s0, es), t, op);
    FairLedger(Mutex(), WatchedRun(Mutex(), s0, es), t, P.Lock);
  }
}
