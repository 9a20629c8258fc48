/**
 The recursive spinlock: an atomic owner, and a recursion count that is not atomic.

 One event executes one instruction of one thread; the increment and the decrement of
 the count are a read and a write each, so that a data race on it would show. An event
 that is not enabled leaves the state alone.
 */
module RecursiveSpinlock {
  import opened Options
  import opened Runs
  import opened ThreadMaps

  datatype Pc =
    | Idle
    | OwnerCas(blocking: bool)     // lock or try_lock
    | SlowLoad
    | SlowCas
    | SetOne                       // recursion_count_ = 1
    | IncrementRead
    | IncrementWrite(v: nat)
    | DecrementRead
    | DecrementWrite(v: nat)
    | ClearOwner

  datatype Operation = Lock | TryLock | Unlock

  /** `Flake` is a weak CAS that fails. */
  datatype Choice = Go | Flake | Call(op: Operation)
  datatype Event = Do(t: Tid, c: Choice)

  /** The shared fields. */
  datatype Shared = Shared(owner: Option<Tid>, count: nat)

  /** `depth` is history: per thread, its successful locks that it has not unlocked yet. */
  datatype State = State(mem: Shared, threads: map<Tid, Pc>, depth: map<Tid, nat>)

  function Init(threads: set<Tid>): State {
    State(Shared(None, 0), map t | t in threads :: Idle, map t | t in threads :: 0)
  }

  /** A thread calls `unlock` only while it holds the lock. */
  function Enter(op: Operation, depth: nat): Pc {
    match op
    case Lock => OwnerCas(true)
    case TryLock => OwnerCas(false)
    case Unlock => if depth > 0 then DecrementRead else Idle
  }

  /** One instruction: the next program counter, the new fields, and the thread's new depth. */
  datatype Effect = Effect(pc: Pc, mem: Shared, depth: nat)

  function Act(t: Tid, pc: Pc, m: Shared, depth: nat, c: Choice): Effect {
    match pc
    case Idle => Effect(if c.Call? then Enter(c.op, depth) else Idle, m, depth)
    case OwnerCas(blocking) =>
      if m.owner.None? then Effect(SetOne, m.(owner := Some(t)), depth)
      else if m.owner == Some(t) then Effect(IncrementRead, m, depth)
      else Effect(if blocking then SlowLoad else Idle, m, depth)
    case SlowLoad => Effect(if m.owner.None? then SlowCas else SlowLoad, m, depth)
    case SlowCas =>
      if c.Go? && m.owner.None? then Effect(SetOne, m.(owner := Some(t)), depth) else Effect(SlowLoad, m, depth)
    case SetOne => Effect(Idle, m.(count := 1), depth + 1)
    case IncrementRead => Effect(IncrementWrite(m.count), m, depth)
    case IncrementWrite(v) => Effect(Idle, m.(count := v + 1), depth + 1)
    case DecrementRead => Effect(DecrementWrite(m.count), m, depth)
    case DecrementWrite(v) =>
      var v' := if v > 0 then v - 1 else 0;
      Effect(if v' == 0 then ClearOwner else Idle, m.(count := v'), if depth > 0 then depth - 1 else 0)
    case ClearOwner => Effect(Idle, m.(owner := None), depth)
  }

  function Step(s: State, e: Event): State {
    if e.t !in s.threads || e.t !in s.depth then s
    else
      var f := Act(e.t, s.threads[e.t], s.mem, s.depth[e.t], e.c);
      State(f.mem, s.threads[e.t := f.pc], s.depth[e.t := f.depth])
  }

  /** Between taking the owner and the end of the call that touches the count. */
  predicate InWindow(pc: Pc) {
    pc.SetOne? || pc.IncrementRead? || pc.IncrementWrite? || pc.DecrementRead? || pc.DecrementWrite? || pc.ClearOwner?
  }

  /** The next instruction reads or writes the non-atomic count. */
  predicate TouchesCount(pc: Pc) {
    pc.SetOne? || pc.IncrementRead? || pc.IncrementWrite? || pc.DecrementRead? || pc.DecrementWrite?
  }

  /** How the owner's depth and the count agree, by the instruction the owner is at. */
  predicate OwnerOk(pc: Pc, count: nat, depth: nat) {
    match pc
    case SetOne => depth == 0
    case ClearOwner => depth == 0 && count == 0
    case IncrementWrite(v) => v == count == depth && depth > 0
    case DecrementWrite(v) => v == count == depth && depth > 0
    case _ => count == depth && depth > 0
  }

  ghost predicate Inv(s: State) {
    && s.threads.Keys == s.depth.Keys
    && (s.mem.owner.Some? ==>
          var o := s.mem.owner.value; o in s.threads && OwnerOk(s.threads[o], s.mem.count, s.depth[o]))
    && forall t :: t in s.threads && s.mem.owner != Some(t) ==> s.depth[t] == 0 && !InWindow(s.threads[t])
  }

  /** What one instruction does, seen from the thread that executes it: the owner keeps the count in
      step with its depth, and any other thread at most becomes the owner. */
  lemma ActKeeps(t: Tid, pc: Pc, m: Shared, depth: nat, c: Choice)
    requires if m.owner == Some(t) then OwnerOk(pc, m.count, depth) else depth == 0 && !InWindow(pc)
    ensures var f := Act(t, pc, m, depth, c);
            && (f.mem.owner == m.owner || (m.owner.None? && f.mem.owner == Some(t))
                || (m.owner == Some(t) && f.mem.owner.None?))
            && (if f.mem.owner == Some(t) then OwnerOk(f.pc, f.mem.count, f.depth) else f.depth == 0 && !InWindow(f.pc))
            && (m.owner != Some(t) && f.mem.owner != Some(t) ==> f.mem == m)
  {
  }

  lemma StepKeepsInv(s: State, e: Event)
    requires Inv(s)
    ensures Inv(Step(s, e))
  {
    if e.t in s.threads {
      ActKeeps(e.t, s.threads[e.t], s.mem, s.depth[e.t], e.c);
      EffectKeepsInv(s, e.t, Act(e.t, s.threads[e.t], s.mem, s.depth[e.t], e.c));
    }
  }

  lemma EffectKeepsInv(s: State, t: Tid, f: Effect)
    requires Inv(s) && t in s.threads
    requires f.mem.owner == s.mem.owner || (s.mem.owner.None? && f.mem.owner == Some(t))
             || (s.mem.owner == Some(t) && f.mem.owner.None?)
    requires if f.mem.owner == Some(t) then OwnerOk(f.pc, f.mem.count, f.depth) else f.depth == 0 && !InWindow(f.pc)
    requires s.mem.owner != Some(t) && f.mem.owner != Some(t) ==> f.mem == s.mem
    ensures Inv(State(f.mem, s.threads[t := f.pc], s.depth[t := f.depth]))
  {
  }

  lemma {:induction false} ReachableInv(threads: set<Tid>, es: seq<Event>)
    ensures Inv(Run(Step, Init(threads), es))
  {
    forall x, e | Inv(x) ensures Inv(Step(x, e)) { StepKeepsInv(x, e); }
    AlwaysInvariant(Step, Inv, Init(threads), es);
  }

  /** Only the owner is ever about to touch the count, so no two threads race on it. */
  lemma CountIsRaceFree(threads: set<Tid>, es: seq<Event>, a: Tid, b: Tid)
    ensures var s := Run(Step, Init(threads), es);
            && (a in s.threads && TouchesCount(s.threads[a]) ==> s.mem.owner == Some(a))
            && (a in s.threads && b in s.threads && TouchesCount(s.threads[a]) && TouchesCount(s.threads[b]) ==> a == b)
  {
    ReachableInv(threads, es);
  }

  /** Outside the windows a thread owns the lock exactly while its locks exceed its unlocks, and the count
      is then that difference; no other thread has any. */
  lemma CountIsNestingDepth(threads: set<Tid>, es: seq<Event>, t: Tid)
    ensures var s := Run(Step, Init(threads), es);
            t in s.threads && t in s.depth && !InWindow(s.threads[t]) ==>
              && (s.mem.owner == Some(t) <==> s.depth[t] > 0)
              && (s.depth[t] > 0 ==>
                    && s.mem.count == s.depth[t]
                    && forall o :: o in s.depth && o != t ==> s.depth[o] == 0)
  {
    ReachableInv(threads, es);
  }

  /** The owner is cleared by the outermost unlock and by nothing else. */
  lemma OwnerClearedAtOutermostUnlock(threads: set<Tid>, es: seq<Event>, e: Event)
    ensures var s := Run(Step, Init(threads), es);
            var s' := Step(s, e);
            && (s.mem.owner.Some? && s'.mem.owner != s.mem.owner ==>
                  && s'.mem.owner.None? && s.mem.owner == Some(e.t)
                  && e.t in s.threads && s.threads[e.t].ClearOwner? && s.depth[e.t] == 0)
            && (e.t in s.threads && e.t in s.depth && s.threads[e.t].DecrementWrite? ==>
                  (s'.threads[e.t].ClearOwner? <==> s.depth[e.t] == 1))
  {
    ReachableInv(threads, es);
  }
}
