/**
 What callers see: calls begin, and return with or without what they asked for. An observer keeps a ledger
 beside a run of a machine. It looks only at where the threads are, changes nothing and decides nothing.
 */
module Calls {
  import opened Options
  import opened Runs
  import opened ThreadMaps

  /** Where a step leaves a call: still under way, or returned with or without what was asked for. */
  datatype Outcome = Inside | Won | Lost

  /** `now` is the call each thread is in; `excused` the threads that met a reason to fail in it; `unexcused`
      the calls that failed without one; `gained` how many calls got what the machine counts. */
  datatype Ledger<O(==)> = Ledger(
    now: map<Tid, O>, excused: set<Tid>,
    begun: multiset<(Tid, O)>, won: multiset<(Tid, O)>, lost: multiset<(Tid, O)>, unexcused: multiset<(Tid, O)>,
    gained: nat)

  function NoCalls<O(==)>(): Ledger<O> {
    Ledger(map[], {}, multiset{}, multiset{}, multiset{}, multiset{}, 0)
  }

  function Begin<O(==)>(l: Ledger<O>, t: Tid, op: O): Ledger<O> {
    l.(now := l.now[t := op], excused := l.excused - {t}, begun := l.begun + multiset{(t, op)})
  }

  function Return<O(==)>(l: Ledger<O>, t: Tid, won: bool, gain: bool): Ledger<O>
    requires t in l.now
  {
    var call := multiset{(t, l.now[t])};
    if won then l.(now := l.now - {t}, won := l.won + call, gained := l.gained + One(gain))
    else l.(now := l.now - {t}, lost := l.lost + call,
            unexcused := if t in l.excused then l.unexcused else l.unexcused + call)
  }

  /** One step of thread `t`, which may begin a call, meet a reason to fail, and return. */
  function Observe<O(==)>(l: Ledger<O>, t: Tid, call: Option<O>, excuse: bool, outcome: Outcome, gains: O -> bool)
    : Ledger<O>
  {
    var l1 := if t !in l.now && call.Some? then Begin(l, t, call.value) else l;
    var l2 := if t in l1.now && excuse then l1.(excused := l1.excused + {t}) else l1;
    if t !in l2.now || outcome.Inside? then l2 else Return(l2, t, outcome.Won?, gains(l2.now[t]))
  }

  /** A machine and what its program counters mean to callers: the operation a step calls, the reasons to fail
      it meets and what it returns; where a call of an operation may be and where it leaves a thread that got
      what it asked for, where a thread in no call may be, where only
      an excused call is and where one is only by a call; and which operations fail at all, which ones gain, and
      what they have gained so far. */
  datatype Interface<!S, !E, !P, !O(==)> = Interface(
    step: (S, E) -> S, threads: S -> map<Tid, P>, actor: E -> Tid,
    call: (S, E) -> Option<O>, excuse: (S, E) -> bool, outcome: (S, E) -> Outcome,
    serves: (O, P) -> bool, grants: (O, P) -> bool, outside: P -> bool, needs: P -> bool, holds: P -> bool,
    fails: O -> bool, gains: O -> bool, gained: S -> int)

  datatype Watched<S, O(==)> = Watched(s: S, calls: Ledger<O>)

  function Watch<S, E, P, O(==)>(m: Interface<S, E, P, O>, x: Watched<S, O>, e: E): Watched<S, O> {
    var s', t := m.step(x.s, e), m.actor(e);
    if t !in m.threads(s') then Watched(s', x.calls)
    else Watched(s', Observe(x.calls, t, m.call(x.s, e), m.excuse(x.s, e), m.outcome(x.s, e), m.gains))
  }

  /** The machine with its observer. */
  function Watcher<S, E, P, O(==)>(m: Interface<S, E, P, O>): (Watched<S, O>, E) -> Watched<S, O> {
    (x: Watched<S, O>, e: E) => Watch(m, x, e)
  }

  /** What a step does to the call `op` of the thread that takes it. */
  ghost predicate CallOk<S, E, P, O(!new)>(m: Interface<S, E, P, O>, s: S, e: E, op: O, needed: bool) {
    var s', t := m.step(s, e), m.actor(e);
    t in m.threads(s')
    && Serving(m, op, m.threads(s')[t], m.outcome(s, e), needed || m.excuse(s, e), m.gained(s') - m.gained(s))
  }

  /** One instruction, seen from the thread that executes it, which gets to `pc` in a call of `op`. */
  ghost predicate Serving<S, E, P, O(!new)>(
    m: Interface<S, E, P, O>, op: O, pc: P, outcome: Outcome, needed: bool, gain: int)
  {
    && gain == One(outcome.Won? && m.gains(op))
    && (m.holds(pc) ==> outcome.Won?)
    && match outcome
       case Inside => m.serves(op, pc) && (m.needs(pc) ==> needed)
       case Won => m.outside(pc) && m.grants(op, pc)
       case Lost => m.outside(pc) && m.fails(op) && needed
  }

  /** The same for a thread in no call, which gets from `pc` to `pc'`. */
  ghost predicate Resting<S, E, P, O>(m: Interface<S, E, P, O>, pc: P, pc': P, gain: int) {
    m.outside(pc') && gain == 0 && (m.holds(pc') ==> m.holds(pc))
  }

  /** A step keeps every call where its operation may be, and every failure excused. */
  ghost predicate StepOk<S, E, P, O(!new)>(m: Interface<S, E, P, O>, s: S, e: E) {
    var s', t := m.step(s, e), m.actor(e);
    && m.threads(s').Keys == m.threads(s).Keys
    && (forall u :: u in m.threads(s) && u != t ==> Alike(m, m.threads(s)[u], m.threads(s')[u]))
    && (t !in m.threads(s) ==> m.gained(s') == m.gained(s))
    && (t in m.threads(s) ==>
          var pc := m.threads(s)[t];
          && (forall op :: m.serves(op, pc) ==> CallOk(m, s, e, op, m.needs(pc)))
          && (m.outside(pc) && m.call(s, e).Some? ==> CallOk(m, s, e, m.call(s, e).value, false))
          && (m.outside(pc) && m.call(s, e).None? ==>
                Resting(m, pc, m.threads(s')[t], m.gained(s') - m.gained(s))))
  }

  /** Another thread's step leaves a thread where it was, as far as its call is concerned. */
  ghost predicate Alike<S, E, P, O(!new)>(m: Interface<S, E, P, O>, pc: P, pc': P) {
    (forall op :: m.serves(op, pc) ==> m.serves(op, pc')) && (m.outside(pc) ==> m.outside(pc'))
    && (m.needs(pc') ==> m.needs(pc))
  }

  /** A step that moves one thread is a fair one if its instruction is. */
  lemma MovedIsOk<S, E, P, O(!new)>(m: Interface<S, E, P, O>, s: S, e: E)
    requires m.actor(e) in m.threads(s) && m.actor(e) in m.threads(m.step(s, e))
    requires m.threads(m.step(s, e)) == m.threads(s)[m.actor(e) := m.threads(m.step(s, e))[m.actor(e)]]
    requires var pc, pc' := m.threads(s)[m.actor(e)], m.threads(m.step(s, e))[m.actor(e)];
             var gain := m.gained(m.step(s, e)) - m.gained(s);
             && (forall op :: m.serves(op, pc) ==>
                   Serving(m, op, pc', m.outcome(s, e), m.needs(pc) || m.excuse(s, e), gain))
             && (m.outside(pc) ==>
                   if m.call(s, e).Some? then Serving(m, m.call(s, e).value, pc', m.outcome(s, e), m.excuse(s, e), gain)
                   else Resting(m, pc, pc', gain))
    ensures StepOk(m, s, e)
  {
    var pc := m.threads(s)[m.actor(e)];
    forall op | m.serves(op, pc) ensures CallOk(m, s, e, op, m.needs(pc)) {
      assert Serving(m, op, m.threads(m.step(s, e))[m.actor(e)], m.outcome(s, e), m.needs(pc) || m.excuse(s, e),
                     m.gained(m.step(s, e)) - m.gained(s));
    }
  }

  /** Where thread `t` is fits the call it is in. */
  ghost predicate Placed<S, E, P, O>(m: Interface<S, E, P, O>, x: Watched<S, O>, t: Tid) {
    t in m.threads(x.s) ==>
      var pc := m.threads(x.s)[t];
      if t in x.calls.now then m.serves(x.calls.now[t], pc) && (m.needs(pc) ==> t in x.calls.excused)
      else m.outside(pc)
  }

  /** The calls of `op` by `t` have each returned once or are under way, and failed only if `op` can. */
  ghost predicate Settled<S, E, P, O>(m: Interface<S, E, P, O>, l: Ledger<O>, t: Tid, op: O) {
    && l.begun[(t, op)] == l.won[(t, op)] + l.lost[(t, op)] + One(t in l.now && l.now[t] == op)
    && (l.lost[(t, op)] > 0 ==> m.fails(op))
  }

  ghost predicate Fair<S, E, P, O(!new)>(m: Interface<S, E, P, O>, x: Watched<S, O>) {
    && (forall t: Tid :: Placed(m, x, t))
    && (forall t: Tid, op: O :: Settled(m, x.calls, t, op))
    && x.calls.now.Keys <= m.threads(x.s).Keys
    && x.calls.unexcused == multiset{}
  }

  /** The observer changes the entries of the thread that took the step only. */
  lemma ObserveOthers<O(!new)>(
    l: Ledger<O>, t: Tid, call: Option<O>, excuse: bool, outcome: Outcome, gains: O -> bool, u: Tid, op: O)
    requires u != t
    ensures var l' := Observe(l, t, call, excuse, outcome, gains);
            && (u in l'.now && l'.now[u] == op <==> u in l.now && l.now[u] == op)
            && l'.begun[(u, op)] == l.begun[(u, op)] && l'.won[(u, op)] == l.won[(u, op)]
            && l'.lost[(u, op)] == l.lost[(u, op)]
  {
  }

  /** A step of thread `t` settles at most the call it is in. */
  lemma ObserveActor<O(!new)>(
    l: Ledger<O>, t: Tid, call: Option<O>, excuse: bool, outcome: Outcome, gains: O -> bool, op: O)
    ensures var l' := Observe(l, t, call, excuse, outcome, gains);
            && l'.begun[(t, op)] - l'.won[(t, op)] - l'.lost[(t, op)] - One(t in l'.now && l'.now[t] == op)
               == l.begun[(t, op)] - l.won[(t, op)] - l.lost[(t, op)] - One(t in l.now && l.now[t] == op)
            && (l'.lost[(t, op)] != l.lost[(t, op)] ==>
                  outcome.Lost? && if t in l.now then l.now[t] == op else call == Some(op))
  {
  }

  lemma OtherStaysPlaced<S, E, P, O(!new)>(m: Interface<S, E, P, O>, x: Watched<S, O>, e: E, u: Tid)
    requires Placed(m, x, u) && u != m.actor(e) && m.threads(m.step(x.s, e)).Keys == m.threads(x.s).Keys
    requires u in m.threads(x.s) ==> Alike(m, m.threads(x.s)[u], m.threads(m.step(x.s, e))[u])
    ensures Placed(m, Watch(m, x, e), u)
  {
    var s', t := m.step(x.s, e), m.actor(e);
    if t in m.threads(s') && u in m.threads(x.s) {
      var call, excuse, outcome := m.call(x.s, e), m.excuse(x.s, e), m.outcome(x.s, e);
      OthersKeepCalls(x.calls, t, call, excuse, outcome, m.gains, u);
    }
  }

  lemma OthersKeepCalls<O(!new)>(
    l: Ledger<O>, t: Tid, call: Option<O>, excuse: bool, outcome: Outcome, gains: O -> bool, u: Tid)
    requires u != t
    ensures var l' := Observe(l, t, call, excuse, outcome, gains);
            && (u in l'.now <==> u in l.now) && (u in l.now ==> l'.now[u] == l.now[u])
            && (u in l'.excused <==> u in l.excused)
  {
  }

  lemma ActorStaysPlaced<S, E, P, O(!new)>(m: Interface<S, E, P, O>, x: Watched<S, O>, e: E)
    requires Placed(m, x, m.actor(e)) && StepOk(m, x.s, e)
    ensures Placed(m, Watch(m, x, e), m.actor(e))
  {
    var t := m.actor(e);
    if t in m.threads(x.s) && t in x.calls.now {
      assert CallOk(m, x.s, e, x.calls.now[t], m.needs(m.threads(x.s)[t]));
    }
  }

  lemma WatchSettles<S, E, P, O(!new)>(m: Interface<S, E, P, O>, x: Watched<S, O>, e: E, u: Tid, op: O)
    requires Settled(m, x.calls, u, op) && Placed(m, x, m.actor(e)) && StepOk(m, x.s, e)
    requires x.calls.now.Keys <= m.threads(x.s).Keys
    ensures Settled(m, Watch(m, x, e).calls, u, op)
  {
    var s', t := m.step(x.s, e), m.actor(e);
    if t in m.threads(s') {
      if u != t {
        ObserveOthers(x.calls, t, m.call(x.s, e), m.excuse(x.s, e), m.outcome(x.s, e), m.gains, u, op);
      } else {
        ObserveActor(x.calls, t, m.call(x.s, e), m.excuse(x.s, e), m.outcome(x.s, e), m.gains, op);
      }
    }
  }

  lemma WatchStaysFair<S, E, P, O(!new)>(m: Interface<S, E, P, O>, x: Watched<S, O>, e: E)
    requires Fair(m, x) && StepOk(m, x.s, e)
    ensures Fair(m, Watch(m, x, e))
    ensures Watch(m, x, e).calls.gained - x.calls.gained == m.gained(m.step(x.s, e)) - m.gained(x.s)
  {
    assert Placed(m, x, m.actor(e));
    forall t: Tid ensures Placed(m, Watch(m, x, e), t) {
      assert Placed(m, x, t);
      if t == m.actor(e) { ActorStaysPlaced(m, x, e); } else { OtherStaysPlaced(m, x, e, t); }
    }
    forall t: Tid, op: O ensures Settled(m, Watch(m, x, e).calls, t, op) {
      assert Settled(m, x.calls, t, op);
      WatchSettles(m, x, e, t, op);
    }
  }

  /** Throughout every run: the observer does not disturb the machine; each call begun has returned once or is
      under way at a place of its operation; only operations that can fail did, each call that did having met
      a reason; and the machine gained exactly what the calls did. */
  lemma {:induction false} RunIsFair<S(!new), E(!new), P, O(!new)>(
    m: Interface<S, E, P, O>, may: (S, E) -> bool, inv: S -> bool, x: Watched<S, O>, es: seq<E>)
    requires forall s, e :: inv(s) && may(s, e) ==> inv(m.step(s, e)) && StepOk(m, s, e)
    requires inv(x.s) && Fair(m, x) && Always(m.step, may, x.s, es)
    ensures var y := Run(Watcher(m), x, es);
            && y.s == Run(m.step, x.s, es) && inv(y.s) && Fair(m, y)
            && y.calls.gained - x.calls.gained == m.gained(y.s) - m.gained(x.s)
    decreases |es|
  {
    if es != [] {
      WatchStaysFair(m, x, es[0]);
      RunIsFair(m, may, inv, Watch(m, x, es[0]), es[1..]);
    }
  }

  lemma FairAtStart<S, E, P, O(!new)>(m: Interface<S, E, P, O>, s: S)
    requires forall t :: t in m.threads(s) ==> m.outside(m.threads(s)[t])
    ensures Fair(m, Watched(s, NoCalls()))
  {
    var x := Watched(s, NoCalls());
    forall t: Tid ensures Placed(m, x, t) {}
    forall t: Tid, op: O ensures Settled(m, x.calls, t, op) {}
  }

  /** A machine in which nobody has called yet, over a whole run. */
  lemma EveryCallIsFair<S(!new), E(!new), P, O(!new)>(
    m: Interface<S, E, P, O>, may: (S, E) -> bool, inv: S -> bool, s: S, es: seq<E>)
    requires forall x, e :: inv(x) && may(x, e) ==> inv(m.step(x, e)) && StepOk(m, x, e)
    requires forall t :: t in m.threads(s) ==> m.outside(m.threads(s)[t])
    requires inv(s) && Always(m.step, may, s, es)
    ensures var y := WatchedRun(m, s, es);
            y.s == Run(m.step, s, es) && inv(y.s) && Fair(m, y) && y.calls.gained == m.gained(y.s) - m.gained(s)
  {
    FairAtStart(m, s);
    RunIsFair(m, may, inv, Watched(s, NoCalls()), es);
  }

  /** The machine and its ledger after a run from the start. */
  function WatchedRun<S, E, P, O(==)>(m: Interface<S, E, P, O>, s: S, es: seq<E>): Watched<S, O> {
    Run(Watcher(m), Watched(s, NoCalls()), es)
  }

  /** What a fair ledger says of one thread and one operation. */
  lemma FairLedger<S, E, P, O(!new)>(m: Interface<S, E, P, O>, x: Watched<S, O>, t: Tid, op: O)
    requires Fair(m, x)
    ensures x.calls.begun[(t, op)]
            == x.calls.won[(t, op)] + x.calls.lost[(t, op)] + One(t in x.calls.now && x.calls.now[t] == op)
    ensures x.calls.lost[(t, op)] > 0 ==> m.fails(op)
    ensures x.calls.unexcused == multiset{}
    ensures t in m.threads(x.s) ==>
              if t in x.calls.now then m.serves(x.calls.now[t], m.threads(x.s)[t]) else m.outside(m.threads(x.s)[t])
  {
    assert Settled(m, x.calls, t, op) && Placed(m, x, t);
  }
}
