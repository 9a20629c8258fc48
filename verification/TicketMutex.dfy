/**
 The ticket mutex: two wrapping 32-bit counters, the next ticket to hand out and the
 ticket being served, and a futex on the second.

 The history carries the same two counters without wrap-around, the ticket each thread
 really holds, and the tickets in the order in which they entered the critical section.
 The code's own words decide every branch; the history decides none.
 */
module TicketMutex {
  import opened Runs
  import opened ThreadMaps
  import opened Words

  /** Where a thread that holds a ticket is inside `lock`. */
  datatype Stage =
    | FirstCheck
    | SpinCheck
    | SlowLoad
    | Wait(cur: Word)          // entering the futex wait
    | Parked(cur: Word)

  /** `my` is the ticket the code stored; `k` the ticket of the history. */
  datatype Pc =
    | Idle
    | Take
    | Queued(stage: Stage, my: Word, k: nat)
    | Critical(k: nat)
    | UnlockStore(k: nat, v: Word)            // unlock has loaded and will store v
    | Notify
    | TryLoad(until: bool)
    | TryCas(until: bool, cur: Word, k0: nat) // k0: the served count when cur was loaded
    | TimedLoad
    | TimedWait(cur: Word)
    | TimedParked(cur: Word)

  datatype Operation = Lock | TryLock | TryLockUntil

  /** `Flake` is a wait that returns for no reason; `Expire` ends a spin phase or is a timeout. */
  datatype Choice = Go | Flake | Expire | Call(op: Operation)
  datatype Event = Do(t: Tid, c: Choice)

  /** The two words, and their history without wrap-around. */
  datatype Shared = Shared(next: Word, serving: Word, issued: nat, served: nat)

  datatype State = State(backoff: bool, mem: Shared, threads: map<Tid, Pc>, entered: seq<nat>)

  function Init(backoff: bool, threads: set<Tid>): State {
    State(backoff, Shared(0, 0, 0, 0), map t | t in threads :: Idle, [])
  }

  function Enter(op: Operation): Pc {
    match op
    case Lock => Take
    case TryLock => TryLoad(false)
    case TryLockUntil => TryLoad(true)
  }

  /** One load of the serving word by a thread with a ticket, or its futex wait. */
  function NextStage(backoff: bool, stage: Stage, my: Word, serving: Word, c: Choice): Stage {
    match stage
    case FirstCheck => if backoff then SpinCheck else SlowLoad
    case SpinCheck => if c.Expire? then SlowLoad else SpinCheck
    case SlowLoad => Wait(serving)
    case Wait(cur) => if c.Call? then stage else if c.Go? && serving == cur then Parked(cur) else SlowLoad
    case Parked(_) => if c.Flake? || c.Expire? then SlowLoad else stage
  }

  /** The stages that compare the serving word with the thread's ticket. */
  predicate Compares(stage: Stage) {
    stage.FirstCheck? || stage.SpinCheck? || stage.SlowLoad?
  }

  /** `lock`, `lock_slow_plain`, `lock_slow_backoff` and `unlock` */
  function ActLock(backoff: bool, pc: Pc, m: Shared, c: Choice): (Pc, Shared) {
    match pc
    case Take => (Queued(FirstCheck, m.next, m.issued), m.(next := Add(m.next, 1), issued := m.issued + 1))
    case Queued(stage, my, k) =>
      (if Compares(stage) && m.serving == my then Critical(k)
       else Queued(NextStage(backoff, stage, my, m.serving, c), my, k), m)
    case Critical(k) => (if c.Go? then UnlockStore(k, Add(m.serving, 1)) else pc, m)
    case UnlockStore(_, v) => (Notify, m.(serving := v, served := m.served + 1))
    case _ => (pc, m)
  }

  /** `try_lock` and `try_lock_until` */
  function ActTry(pc: Pc, m: Shared, c: Choice): (Pc, Shared) {
    match pc
    case TryLoad(until) => (TryCas(until, m.serving, m.served), m)
    case TryCas(until, cur, _) =>
      if m.next == cur then (Critical(m.issued), m.(next := Add(cur, 1), issued := m.issued + 1))
      else (if until then TimedLoad else Idle, m)
    case TimedLoad => (if c.Expire? then Idle else TimedWait(m.serving), m)
    case TimedWait(cur) =>
      (if c.Call? then pc else if c.Go? && m.serving == cur then TimedParked(cur) else TryLoad(true), m)
    case TimedParked(_) => (if c.Flake? || c.Expire? then TryLoad(true) else pc, m)
    case _ => (pc, m)
  }

  function Act(backoff: bool, pc: Pc, m: Shared, c: Choice): (Pc, Shared) {
    if pc.Idle? then (if c.Call? then Enter(c.op) else Idle, m)
    else if Tries(pc) then ActTry(pc, m, c)
    else ActLock(backoff, pc, m, c)
  }

  /** The state after thread `t` moved to `pc` and left the memory as `m`. */
  function Moved(s: State, t: Tid, pc: Pc, m: Shared): State
    requires t in s.threads
  {
    State(s.backoff, m, s.threads[t := pc],
          if pc.Critical? && !s.threads[t].Critical? then s.entered + [pc.k] else s.entered)
  }

  /** A woken sleeper goes back to comparing the word. */
  function Woken(pc: Pc): Pc {
    if pc.Queued? && pc.stage.Parked? then pc.(stage := Wait(pc.stage.cur))
    else if pc.TimedParked? then TimedWait(pc.cur)
    else pc
  }

  function Step(s: State, e: Event): State {
    if e.t !in s.threads then s
    else if s.threads[e.t].Notify? then s.(threads := MapAll(s.threads, Woken)[e.t := Idle])
    else
      var (pc, m) := Act(s.backoff, s.threads[e.t], s.mem, e.c);
      Moved(s, e.t, pc, m)
  }

  /** The `try_lock` in flight is not so old that 2^32 tickets were issued since its load. */
  predicate NoAlias(s: State, e: Event) {
    e.t in s.threads && s.threads[e.t].TryCas? ==> s.mem.issued - s.threads[e.t].k0 < TWO32
  }

  // ----- classes of program counters

  predicate Tries(pc: Pc) {
    pc.TryLoad? || pc.TryCas? || pc.TimedLoad? || pc.TimedWait? || pc.TimedParked?
  }

  predicate Inside(pc: Pc) {
    pc.Critical? || pc.UnlockStore?
  }

  predicate HasTicket(pc: Pc) {
    pc.Queued? || Inside(pc)
  }

  predicate Notifying(pc: Pc) {
    pc.Notify?
  }

  /** Asleep on a value that is no longer served. */
  predicate Outdated(pc: Pc, serving: Word) {
    || (pc.Queued? && pc.stage.Parked? && pc.stage.cur != serving)
    || (pc.TimedParked? && pc.cur != serving)
  }

  // ----- the invariant

  ghost predicate WordsOk(m: Shared) {
    m.next == m.issued % TWO32 && m.serving == m.served % TWO32 && m.served <= m.issued
  }

  /** What a thread's locals say about the counters. */
  predicate LocalOk(pc: Pc, m: Shared) {
    && (HasTicket(pc) ==> m.served <= pc.k < m.issued)
    && (pc.Queued? ==> pc.my == pc.k % TWO32)
    && (pc.Queued? && !Compares(pc.stage) ==> pc.stage.cur != pc.my)
    && (Inside(pc) ==> pc.k == m.served)
    && (pc.UnlockStore? ==> pc.v == Add(m.serving, 1))
    && (pc.TryCas? ==> pc.k0 <= m.served && pc.cur == pc.k0 % TWO32)
  }

  ghost predicate LocalsOk(m: map<Tid, Pc>, mem: Shared) {
    forall t :: t in m ==> LocalOk(m[t], mem)
  }

  ghost predicate TicketsDistinct(m: map<Tid, Pc>) {
    forall a, b :: a in m && b in m && a != b && HasTicket(m[a]) && HasTicket(m[b]) ==> m[a].k != m[b].k
  }

  /** The critical section was entered by tickets 0, 1, 2, and so on; one thread may be inside. */
  ghost predicate InOrder(s: State) {
    && Count(s.threads, Inside) <= 1
    && |s.entered| == s.mem.served + Count(s.threads, Inside)
    && forall i :: 0 <= i < |s.entered| ==> s.entered[i] == i
  }

  ghost predicate SleepersNotified(s: State) {
    Count(s.threads, Notifying) == 0 ==> forall t :: t in s.threads ==> !Outdated(s.threads[t], s.mem.serving)
  }

  ghost predicate Inv(s: State) {
    && |s.threads| < TWO32
    && WordsOk(s.mem) && LocalsOk(s.threads, s.mem) && TicketsDistinct(s.threads)
    && Count(s.threads, HasTicket) == s.mem.issued - s.mem.served
    && InOrder(s) && SleepersNotified(s)
  }

  // ----- arithmetic of the wrapping counters

  /** Two counters less than 2^32 apart with the same low word are equal. */
  lemma SameLowWord(a: nat, b: nat)
    requires a <= b && b - a < TWO32 && a % TWO32 == b % TWO32
    ensures a == b
  {
  }

  lemma NextLowWord(a: nat)
    ensures Add(a % TWO32, 1) == (a + 1) % TWO32
    ensures Add(a % TWO32, 1) != a % TWO32
  {
  }

  // ----- one instruction

  lemma Counts(m: map<Tid, Pc>, t: Tid, pc: Pc)
    requires t in m
    ensures |m[t := pc]| == |m|
    ensures Count(m[t := pc], HasTicket) == Count(m, HasTicket) - One(HasTicket(m[t])) + One(HasTicket(pc))
    ensures Count(m[t := pc], Inside) == Count(m, Inside) - One(Inside(m[t])) + One(Inside(pc))
    ensures Count(m[t := pc], Notifying) == Count(m, Notifying) - One(Notifying(m[t])) + One(Notifying(pc))
  {
    CountUpdate(m, t, pc, HasTicket);
    CountUpdate(m, t, pc, Inside);
    CountUpdate(m, t, pc, Notifying);
  }

  /** At most 2^32 - 1 tickets are outstanding: every one is held by another thread. */
  lemma FewOutstanding(s: State)
    requires Inv(s)
    ensures s.mem.issued - s.mem.served < TWO32
  {
    CountAtMost(s.threads, HasTicket);
  }

  /** A thread whose ticket word is served really has the next ticket, and finds nobody inside. */
  lemma EntersInTurn(s: State, t: Tid)
    requires Inv(s) && t in s.threads && s.threads[t].Queued? && s.threads[t].my == s.mem.serving
    ensures s.threads[t].k == s.mem.served && Count(s.threads, Inside) == 0
  {
    FewOutstanding(s);
    SameLowWord(s.mem.served, s.threads[t].k);
    if Count(s.threads, Inside) > 0 {
      var w := CountWitness(s.threads, Inside);
      assert false;
    }
  }

  /** A `try_lock` that succeeds takes the next ticket while none is outstanding. */
  lemma TryEntersInTurn(s: State, t: Tid)
    requires Inv(s) && t in s.threads && s.threads[t].TryCas? && s.threads[t].cur == s.mem.next
    requires s.mem.issued - s.threads[t].k0 < TWO32
    ensures s.mem.issued == s.mem.served && Count(s.threads, HasTicket) == 0 && Count(s.threads, Inside) == 0
  {
    SameLowWord(s.threads[t].k0, s.mem.issued);
    CountZero(s.threads, HasTicket);
    CountZero(s.threads, Inside);
  }

  lemma DistinctUpdate(m: map<Tid, Pc>, t: Tid, pc: Pc)
    requires t in m && TicketsDistinct(m)
    requires HasTicket(pc) ==> forall o :: o in m && o != t && HasTicket(m[o]) ==> m[o].k != pc.k
    ensures TicketsDistinct(m[t := pc])
  {
  }

  /** A move that changes neither the memory nor the thread's ticket. */
  predicate Quiet(pc: Pc, r: (Pc, Shared), m: Shared) {
    && r.1 == m && LocalOk(r.0, m) && !Outdated(r.0, m.serving)
    && HasTicket(pc) == HasTicket(r.0) && (HasTicket(pc) ==> pc.k == r.0.k)
    && Inside(pc) == Inside(r.0) && (r.0.Critical? ==> pc.Critical?)
    && Notifying(pc) == Notifying(r.0)
  }

  lemma LockQuiet(backoff: bool, pc: Pc, m: Shared, c: Choice)
    requires WordsOk(m) && LocalOk(pc, m) && !pc.Idle? && !Tries(pc)
    requires !pc.Take? && !pc.UnlockStore? && !(pc.Queued? && pc.my == m.serving)
    ensures Quiet(pc, ActLock(backoff, pc, m, c), m) || ActLock(backoff, pc, m, c) == (pc, m)
  {
  }

  lemma TryQuiet(pc: Pc, m: Shared, c: Choice)
    requires WordsOk(m) && LocalOk(pc, m) && Tries(pc) && !(pc.TryCas? && pc.cur == m.next)
    ensures Quiet(pc, ActTry(pc, m, c), m) || ActTry(pc, m, c) == (pc, m)
  {
  }

  lemma QuietKeepsInv(s: State, t: Tid, r: (Pc, Shared))
    requires Inv(s) && t in s.threads && Quiet(s.threads[t], r, s.mem)
    ensures Inv(Moved(s, t, r.0, r.1))
  {
    Counts(s.threads, t, r.0);
  }

  /** Handing out a ticket disturbs nobody's locals. */
  lemma IssueKeepsLocals(m: map<Tid, Pc>, t: Tid, pc: Pc, mem: Shared, mem': Shared)
    requires t in m && LocalsOk(m, mem) && mem'.serving == mem.serving && mem'.served == mem.served
    requires mem'.issued >= mem.issued && LocalOk(pc, mem')
    ensures LocalsOk(m[t := pc], mem')
  {
  }

  lemma TakenKeepsInv(s: State, t: Tid, pc: Pc, m: Shared)
    requires Inv(s) && t in s.threads && s.threads[t].Take?
    requires pc == Queued(FirstCheck, s.mem.next, s.mem.issued)
    requires m == s.mem.(next := Add(s.mem.next, 1), issued := s.mem.issued + 1)
    ensures Inv(Moved(s, t, pc, m))
  {
    Counts(s.threads, t, pc);
    DistinctUpdate(s.threads, t, pc);
    NextLowWord(s.mem.issued);
    IssueKeepsLocals(s.threads, t, pc, s.mem, m);
  }

  lemma TakeKeepsInv(s: State, t: Tid, c: Choice)
    requires Inv(s) && t in s.threads && s.threads[t].Take?
    ensures Inv(Step(s, Do(t, c)))
  {
    var r := Act(s.backoff, s.threads[t], s.mem, c);
    TakenKeepsInv(s, t, r.0, r.1);
  }

  /** Thread `t` enters with the ticket being served: its own, or a new one while none is outstanding. */
  predicate Enters(s: State, t: Tid, k: nat, m: Shared) {
    && t in s.threads && !Inside(s.threads[t]) && !s.threads[t].Notify?
    && Count(s.threads, Inside) == 0 && k == s.mem.served
    && if HasTicket(s.threads[t]) then m == s.mem && s.threads[t].k == k
       else s.mem.issued == k && Count(s.threads, HasTicket) == 0
            && m == s.mem.(next := Add(s.mem.next, 1), issued := k + 1)
  }

  lemma EntryKeepsCounters(s: State, t: Tid, k: nat, m: Shared)
    requires Inv(s) && Enters(s, t, k, m)
    ensures var s' := Moved(s, t, Critical(k), m);
            && WordsOk(s'.mem) && LocalsOk(s'.threads, s'.mem) && TicketsDistinct(s'.threads)
            && Count(s'.threads, HasTicket) == s'.mem.issued - s'.mem.served
  {
    CountZero(s.threads, HasTicket);
    CountUpdate(s.threads, t, Critical(k), HasTicket);
    DistinctUpdate(s.threads, t, Critical(k));
    IssueKeepsLocals(s.threads, t, Critical(k), s.mem, m);
    NextLowWord(s.mem.issued);
  }

  lemma EntryKeepsInv(s: State, t: Tid, k: nat, m: Shared)
    requires Inv(s) && Enters(s, t, k, m)
    ensures Inv(Moved(s, t, Critical(k), m))
  {
    EntryKeepsCounters(s, t, k, m);
    Counts(s.threads, t, Critical(k));
  }

  lemma StoreKeepsInv(s: State, t: Tid, c: Choice)
    requires Inv(s) && t in s.threads && s.threads[t].UnlockStore?
    ensures Inv(Step(s, Do(t, c)))
  {
    Counts(s.threads, t, Notify);
    DistinctUpdate(s.threads, t, Notify);
    NextLowWord(s.mem.served);
    CountHas(s.threads, t, Inside);
    forall o | o in s.threads && o != t ensures !Inside(s.threads[o]) {
      if Inside(s.threads[o]) { CountUnique(s.threads, Inside, o, t); }
    }
  }

  lemma WokenAlike(pc: Pc)
    ensures HasTicket(Woken(pc)) == HasTicket(pc) && (HasTicket(pc) ==> Woken(pc).k == pc.k)
    ensures Inside(Woken(pc)) == Inside(pc) && forall w :: !Outdated(Woken(pc), w)
    ensures forall m :: LocalOk(pc, m) ==> LocalOk(Woken(pc), m)
  {
  }

  lemma WokenCounts(m: map<Tid, Pc>)
    ensures Count(MapAll(m, Woken), HasTicket) == Count(m, HasTicket)
    ensures Count(MapAll(m, Woken), Inside) == Count(m, Inside)
    ensures |MapAll(m, Woken)| == |m|
  {
    forall pc: Pc ensures HasTicket(Woken(pc)) == HasTicket(pc) && Inside(Woken(pc)) == Inside(pc) {
      WokenAlike(pc);
    }
    CountMapAll(m, Woken, HasTicket, HasTicket);
    CountMapAll(m, Woken, Inside, Inside);
  }

  lemma WokenLocals(m: map<Tid, Pc>, mem: Shared)
    requires LocalsOk(m, mem)
    ensures LocalsOk(MapAll(m, Woken), mem)
    ensures forall t :: t in m ==> !Outdated(Woken(m[t]), mem.serving)
  {
    forall t | t in m ensures LocalOk(Woken(m[t]), mem) && !Outdated(Woken(m[t]), mem.serving) {
      WokenAlike(m[t]);
    }
  }

  lemma WokenTickets(m: map<Tid, Pc>)
    requires TicketsDistinct(m)
    ensures TicketsDistinct(MapAll(m, Woken))
  {
    forall t | t in m
      ensures HasTicket(Woken(m[t])) == HasTicket(m[t]) && (HasTicket(m[t]) ==> Woken(m[t]).k == m[t].k)
    {
      WokenAlike(m[t]);
    }
  }

  lemma WokenKeepsInv(s: State)
    requires Inv(s)
    ensures var s' := s.(threads := MapAll(s.threads, Woken));
            Inv(s') && forall t :: t in s'.threads ==> !Outdated(s'.threads[t], s.mem.serving)
  {
    WokenCounts(s.threads);
    WokenLocals(s.threads, s.mem);
    WokenTickets(s.threads);
  }

  lemma NotifiedKeepsInv(s: State, t: Tid)
    requires Inv(s) && t in s.threads && s.threads[t].Notify?
    requires forall o :: o in s.threads ==> !Outdated(s.threads[o], s.mem.serving)
    ensures Inv(s.(threads := s.threads[t := Idle]))
  {
    Counts(s.threads, t, Idle);
  }

  lemma NotifyKeepsInv(s: State, t: Tid, c: Choice)
    requires Inv(s) && t in s.threads && s.threads[t].Notify?
    ensures Inv(Step(s, Do(t, c)))
  {
    WokenKeepsInv(s);
    NotifiedKeepsInv(s.(threads := MapAll(s.threads, Woken)), t);
  }

  lemma EnterKeepsInv(s: State, t: Tid, c: Choice)
    requires Inv(s) && t in s.threads && s.threads[t].Queued? && s.threads[t].my == s.mem.serving
    requires Act(s.backoff, s.threads[t], s.mem, c).0.Critical?
    ensures Inv(Step(s, Do(t, c)))
  {
    EntersInTurn(s, t);
    EntryKeepsInv(s, t, s.threads[t].k, s.mem);
  }

  lemma QueuedKeepsInv(s: State, t: Tid, c: Choice)
    requires Inv(s) && t in s.threads && s.threads[t].Queued?
    ensures Inv(Step(s, Do(t, c)))
  {
    var pc, r := s.threads[t], Act(s.backoff, s.threads[t], s.mem, c);
    if pc.my == s.mem.serving && r.0.Critical? {
      EnterKeepsInv(s, t, c);
    } else {
      if pc.my != s.mem.serving { LockQuiet(s.backoff, pc, s.mem, c); }
      QuietOrSameKeepsInv(s, t, r);
    }
  }

  lemma QuietOrSameKeepsInv(s: State, t: Tid, r: (Pc, Shared))
    requires Inv(s) && t in s.threads && (Quiet(s.threads[t], r, s.mem) || r == (s.threads[t], s.mem))
    ensures Inv(Moved(s, t, r.0, r.1))
  {
    if r == (s.threads[t], s.mem) {
      assert s.threads[t := s.threads[t]] == s.threads;
    } else {
      QuietKeepsInv(s, t, r);
    }
  }

  lemma StepKeepsInv(s: State, e: Event)
    requires Inv(s) && NoAlias(s, e)
    ensures Inv(Step(s, e))
  {
    if e.t in s.threads {
      var t, pc := e.t, s.threads[e.t];
      if pc.Notify? {
        NotifyKeepsInv(s, t, e.c);
      } else if pc.Take? {
        TakeKeepsInv(s, t, e.c);
      } else if pc.UnlockStore? {
        StoreKeepsInv(s, t, e.c);
      } else if pc.Queued? {
        QueuedKeepsInv(s, t, e.c);
      } else if pc.TryCas? && pc.cur == s.mem.next {
        TryEntersInTurn(s, t);
        EntryKeepsInv(s, t, s.mem.issued, Act(s.backoff, pc, s.mem, e.c).1);
      } else {
        if Tries(pc) {
          TryQuiet(pc, s.mem, e.c);
        } else if !pc.Idle? {
          LockQuiet(s.backoff, pc, s.mem, e.c);
        }
        QuietOrSameKeepsInv(s, t, Act(s.backoff, pc, s.mem, e.c));
      }
    }
  }

  // ----- every run

  lemma ReachableInv(backoff: bool, threads: set<Tid>, es: seq<Event>)
    requires |threads| < TWO32 && Always(Step, NoAlias, Init(backoff, threads), es)
    ensures Inv(Run(Step, Init(backoff, threads), es))
  {
    var s0 := Init(backoff, threads);
    assert s0.threads.Keys == threads;
    CountZero(s0.threads, HasTicket);
    CountZero(s0.threads, Inside);
    forall x, e | Inv(x) && NoAlias(x, e) ensures Inv(Step(x, e)) { StepKeepsInv(x, e); }
    Invariant(Step, NoAlias, Inv, s0, es);
  }

  /** Over any run the critical section is entered by tickets 0, 1, 2, and so on, one thread at a time. */
  lemma StrictlyFifo(backoff: bool, threads: set<Tid>, es: seq<Event>)
    requires |threads| < TWO32 && Always(Step, NoAlias, Init(backoff, threads), es)
    ensures var s := Run(Step, Init(backoff, threads), es);
            && (forall i :: 0 <= i < |s.entered| ==> s.entered[i] == i)
            && s.mem.served <= |s.entered| <= s.mem.served + 1
            && (forall a, b ::
                  a in s.threads && b in s.threads && Inside(s.threads[a]) && Inside(s.threads[b]) ==> a == b)
            && (forall t :: t in s.threads && Inside(s.threads[t]) ==> |s.entered| == s.threads[t].k + 1)
  {
    var s := Run(Step, Init(backoff, threads), es);
    ReachableInv(backoff, threads, es);
    forall a, b | a in s.threads && b in s.threads && Inside(s.threads[a]) && Inside(s.threads[b]) ensures a == b {
      CountUnique(s.threads, Inside, a, b);
    }
    forall t | t in s.threads && Inside(s.threads[t]) ensures |s.entered| == s.threads[t].k + 1 {
      CountHas(s.threads, t, Inside);
    }
  }

  /** Nobody sleeps on an outdated value without a notify coming; and the value an unlocker is about to
      store is still the successor of the word, since only the thread inside writes it. */
  lemma SleepersAreNotified(backoff: bool, threads: set<Tid>, es: seq<Event>, t: Tid)
    requires |threads| < TWO32 && Always(Step, NoAlias, Init(backoff, threads), es)
    ensures var s := Run(Step, Init(backoff, threads), es);
            t in s.threads ==>
              && (Outdated(s.threads[t], s.mem.serving) ==> exists n :: n in s.threads && Notifying(s.threads[n]))
              && (s.threads[t].UnlockStore? ==> s.threads[t].v == Add(s.mem.serving, 1))
  {
    var s := Run(Step, Init(backoff, threads), es);
    ReachableInv(backoff, threads, es);
    if t in s.threads && Outdated(s.threads[t], s.mem.serving) {
      var n := CountWitness(s.threads, Notifying);
    }
  }

  // ----- progress

  function TicketOf(pc: Pc): int {
    if HasTicket(pc) then pc.k else -1
  }

  /** Every outstanding ticket is held by a thread. */
  lemma TicketHolder(s: State, k: nat) returns (t: Tid)
    requires Inv(s) && s.mem.served <= k < s.mem.issued
    ensures t in s.threads && HasTicket(s.threads[t]) && s.threads[t].k == k
  {
    var holders := Where(s.threads, HasTicket);
    ValuesSize(s.threads, holders, TicketOf);
    RangeSize(s.mem.served, s.mem.issued);
    SubsetSameSize(Values(s.threads, holders, TicketOf), Range(s.mem.served, s.mem.issued));
    assert k in Range(s.mem.served, s.mem.issued);
    t :| t in holders && TicketOf(s.threads[t]) == k;
  }

  predicate Ordinary(e: Event) {
    e.c.Go?
  }

  /** Thread `w` holds ticket `k` and waits for it. */
  predicate WaitsWith(s: State, w: Tid, k: nat) {
    w in s.threads && s.threads[w].Queued? && s.threads[w].k == k
  }

  /** A waiting thread keeps waiting with its ticket while another thread runs. */
  lemma OthersKeepWaiting(s: State, e: Event, w: Tid, k: nat)
    requires WaitsWith(s, w, k) && e.t != w
    ensures WaitsWith(Step(s, e), w, k)
  {
    if e.t in s.threads && s.threads[e.t].Notify? {
      assert Step(s, e).threads[w] == Woken(s.threads[w]);
    }
  }

  /** Steps the served thread needs to find out that it is served. */
  function Distance(stage: Stage): nat {
    if stage.Parked? then 3 else if stage.Wait? then 2 else 1
  }

  /** One instruction, of the served thread itself or of a pending notifier, brings it closer. */
  lemma ServedApproaches(s: State, w: Tid) returns (e: Event)
    requires Inv(s) && WaitsWith(s, w, s.mem.served)
    ensures e.c.Go? && NoAlias(s, e) && (e.t == w || (e.t in s.threads && s.threads[e.t].Notify?))
    ensures var s' := Step(s, e);
            && s'.mem == s.mem && w in s'.threads
            && if Compares(s.threads[w].stage) then s'.threads[w] == Critical(s.mem.served)
               else WaitsWith(s', w, s.mem.served) && Distance(s'.threads[w].stage) < Distance(s.threads[w].stage)
  {
    if s.threads[w].stage.Parked? {
      var n := CountWitness(s.threads, Notifying);
      e := Do(n, Go);
      assert Step(s, e).threads[w] == Woken(s.threads[w]);
    } else {
      e := Do(w, Go);
    }
  }

  /** The thread with the ticket being served gets in, by at most three ordinary instructions. */
  lemma {:induction false} ServedEnters(s: State, w: Tid) returns (es: seq<Event>)
    requires Inv(s) && WaitsWith(s, w, s.mem.served)
    ensures Only(Ordinary, es) && |es| <= Distance(s.threads[w].stage)
    ensures forall x, k :: x != w && WaitsWith(s, x, k) ==> WaitsWith(Run(Step, s, es), x, k)
    ensures var s' := Run(Step, s, es);
            Inv(s') && s'.mem == s.mem && w in s'.threads && s'.threads[w] == Critical(s.mem.served)
    decreases Distance(s.threads[w].stage)
  {
    var e := ServedApproaches(s, w);
    var s1 := Step(s, e);
    StepKeepsInv(s, e);
    forall x, k | x != w && WaitsWith(s, x, k) ensures WaitsWith(s1, x, k) {
      OthersKeepWaiting(s, e, x, k);
    }
    if Compares(s.threads[w].stage) {
      es := [e];
      Prepend(Step, s, e, []);
    } else {
      var rest := ServedEnters(s1, w);
      es := [e] + rest;
      Prepend(Step, s, e, rest);
    }
  }

  lemma InsideSteps(s: State, h: Tid, w: Tid, k: nat)
    requires Inv(s) && h in s.threads && Inside(s.threads[h]) && WaitsWith(s, w, k)
    ensures var s' := Step(s, Do(h, Go));
            && Inv(s') && WaitsWith(s', w, k) && s'.mem.issued == s.mem.issued && h in s'.threads
            && if s.threads[h].Critical? then s'.threads[h].UnlockStore? && s'.mem.served == s.mem.served
               else s'.mem.served == s.mem.served + 1
  {
    StepKeepsInv(s, Do(h, Go));
    OthersKeepWaiting(s, Do(h, Go), w, k);
  }

  /** The thread inside unlocks, and the next ticket is served. */
  lemma InsideLeaves(s: State, h: Tid, w: Tid, k: nat) returns (es: seq<Event>)
    requires Inv(s) && h in s.threads && Inside(s.threads[h]) && WaitsWith(s, w, k)
    ensures Only(Ordinary, es) && |es| <= 2
    ensures var s' := Run(Step, s, es);
            Inv(s') && WaitsWith(s', w, k) && s'.mem.served == s.mem.served + 1 && s'.mem.issued == s.mem.issued
  {
    var e := Do(h, Go);
    InsideSteps(s, h, w, k);
    Prepend(Step, s, e, []);
    es := [e];
    if s.threads[h].Critical? {
      var s1 := Step(s, e);
      InsideSteps(s1, h, w, k);
      Prepend(Step, s1, e, []);
      Prepend(Step, s, e, [e]);
      es := [e] + [e];
    }
  }

  /** The ticket being served enters if it has not yet, and leaves. */
  lemma ServedLeaves(s: State, w: Tid, k: nat) returns (es: seq<Event>)
    requires Inv(s) && WaitsWith(s, w, k) && k != s.mem.served
    ensures Only(Ordinary, es) && |es| <= 5
    ensures var s' := Run(Step, s, es);
            Inv(s') && WaitsWith(s', w, k) && s'.mem.served == s.mem.served + 1 && s'.mem.issued == s.mem.issued
  {
    var h := TicketHolder(s, s.mem.served);
    if s.threads[h].Queued? {
      var enter := ServedEnters(s, h);
      var leave := InsideLeaves(Run(Step, s, enter), h, w, k);
      es := enter + leave;
      RunConcat(Step, s, enter, leave);
    } else {
      es := InsideLeaves(s, h, w, k);
    }
  }

  /** From every reachable state a thread that waits with ticket `k` gets the lock by ordinary instructions
      alone, after exactly `k - served` unlocks, whoever else waits and without a newcomer. */
  lemma {:induction false} TicketGetsServed(s: State, w: Tid, k: nat) returns (es: seq<Event>)
    requires Inv(s) && WaitsWith(s, w, k)
    ensures Only(Ordinary, es) && |es| <= 5 * (k - s.mem.served) + 3
    ensures var s' := Run(Step, s, es);
            && w in s'.threads && s'.threads[w] == Critical(k)
            && s'.mem.served == k && s'.mem.issued == s.mem.issued
    decreases k - s.mem.served
  {
    if k == s.mem.served {
      es := ServedEnters(s, w);
    } else {
      var first := ServedLeaves(s, w, k);
      var rest := TicketGetsServed(Run(Step, s, first), w, k);
      es := first + rest;
      RunConcat(Step, s, first, rest);
    }
  }

  // ----- what try_lock needs

  /** A `try_lock` about to succeed keeps the order of tickets and mutual exclusion exactly if the serving
      word is still the one it loaded, and it is if fewer than 2^32 tickets were issued since. */
  lemma TryLockSafeIfServingUnchanged(s: State, t: Tid, c: Choice)
    requires Inv(s) && t in s.threads && s.threads[t].TryCas? && s.threads[t].cur == s.mem.next
    ensures InOrder(Step(s, Do(t, c))) <==> s.mem.serving == s.threads[t].cur
    ensures Inv(Step(s, Do(t, c))) <==> s.mem.serving == s.threads[t].cur
    ensures NoAlias(s, Do(t, c)) ==> s.mem.serving == s.threads[t].cur
  {
    var s' := Step(s, Do(t, c));
    FewOutstanding(s);
    Counts(s.threads, t, Critical(s.mem.issued));
    if s.mem.serving == s.threads[t].cur {
      SameLowWord(s.mem.served, s.mem.issued);
      EntryKeepsInv(s, t, s.mem.issued, Act(s.backoff, s.threads[t], s.mem, c).1);
    } else {
      assert s'.entered[|s.entered|] == s.mem.issued;
      if NoAlias(s, Do(t, c)) { TryEntersInTurn(s, t); }
    }
  }

  /** A `try_lock` that succeeds finds the serving word it loaded. */
  predicate ServingUnchanged(s: State, e: Event) {
    e.t in s.threads && s.threads[e.t].TryCas? && s.threads[e.t].cur == s.mem.next ==>
      s.mem.serving == s.threads[e.t].cur
  }

  lemma StepKeepsOrderExactly(s: State, e: Event)
    requires Inv(s)
    ensures InOrder(Step(s, e)) <==> ServingUnchanged(s, e)
    ensures Inv(Step(s, e)) <==> ServingUnchanged(s, e)
    ensures NoAlias(s, e) ==> ServingUnchanged(s, e)
  {
    if e.t in s.threads && s.threads[e.t].TryCas? {
      if s.threads[e.t].cur == s.mem.next {
        TryLockSafeIfServingUnchanged(s, e.t, e.c);
      } else {
        TryQuiet(s.threads[e.t], s.mem, e.c);
        QuietOrSameKeepsInv(s, e.t, Act(s.backoff, s.threads[e.t], s.mem, e.c));
      }
    } else {
      StepKeepsInv(s, e);
    }
  }

  ghost predicate OrderAfter(s: State, e: Event) {
    InOrder(Step(s, e))
  }

  /** From the start, or from any state reached in order, tickets enter in order and one at a time throughout a
      run exactly if every `try_lock` of the run that succeeds finds the serving word it loaded. */
  lemma OrderKeptExactly(s: State, es: seq<Event>)
    requires Inv(s)
    ensures Always(Step, OrderAfter, s, es) <==> Always(Step, ServingUnchanged, s, es)
    ensures Always(Step, NoAlias, s, es) ==> Always(Step, ServingUnchanged, s, es)
  {
    forall x, e | Inv(x)
      ensures OrderAfter(x, e) <==> ServingUnchanged(x, e)
      ensures ServingUnchanged(x, e) ==> Inv(Step(x, e))
      ensures NoAlias(x, e) ==> ServingUnchanged(x, e)
    {
      StepKeepsOrderExactly(x, e);
    }
    AlwaysAnything(Step, s, es);
    KeptExactly(Step, Anything, AnyState, Inv, ServingUnchanged, OrderAfter, s, es);
    if Always(Step, NoAlias, s, es) {
      AlwaysFollows(Step, NoAlias, Inv, ServingUnchanged, s, es);
    }
  }

  /** Thread 1 is about to try the ticket word 0 it read at the start; `i` tickets issued, `v` served. */
  predicate Stale(s: State, i: nat, v: nat, zero: Pc) {
    && s.threads.Keys == {0, 1} && s.threads[0] == zero && s.threads[1] == TryCas(false, 0, 0)
    && s.mem == Shared(i % TWO32, v % TWO32, i, v)
  }

  lemma Locks(s: State, n: nat) returns (s': State)
    requires Stale(s, n, n, Idle)
    ensures s' == Step(Step(Step(s, Do(0, Call(Lock))), Do(0, Go)), Do(0, Go)) && Stale(s', n + 1, n, Critical(n))
  {
    NextLowWord(n);
    var s1 := Step(s, Do(0, Call(Lock)));
    assert Stale(s1, n, n, Take);
    var s2 := Step(s1, Do(0, Go));
    assert Stale(s2, n + 1, n, Queued(FirstCheck, n % TWO32, n));
    s' := Step(s2, Do(0, Go));
  }

  lemma Unlocks(s: State, n: nat) returns (s': State)
    requires Stale(s, n + 1, n, Critical(n))
    ensures s' == Step(Step(Step(s, Do(0, Go)), Do(0, Go)), Do(0, Go)) && Stale(s', n + 1, n + 1, Idle)
  {
    NextLowWord(n);
    var s1 := Step(s, Do(0, Go));
    assert Stale(s1, n + 1, n, UnlockStore(n, (n + 1) % TWO32));
    var s2 := Step(s1, Do(0, Go));
    assert Stale(s2, n + 1, n + 1, Notify);
    s' := Step(s2, Do(0, Go));
    NotifyAlone(s2);
  }

  lemma NotifyAlone(s: State)
    requires s.threads.Keys == {0, 1} && s.threads[0] == Notify && s.threads[1].TryCas?
    ensures var s' := Step(s, Do(0, Go));
            s'.threads.Keys == {0, 1} && s'.threads[0] == Idle && s'.threads[1] == s.threads[1] && s'.mem == s.mem
  {
  }

  /** Thread 0 locks and unlocks until ticket 2^32 - 1 is its own. */
  lemma {:induction false} GoAround(s: State, n: nat) returns (es: seq<Event>)
    requires Stale(s, n, n, Idle) && n < TWO32
    ensures Stale(Run(Step, s, es), TWO32, TWO32 - 1, Critical(TWO32 - 1))
    decreases TWO32 - n
  {
    var lock := [Do(0, Call(Lock)), Do(0, Go), Do(0, Go)];
    var s1 := Locks(s, n);
    Three(Step, s, lock[0], lock[1], lock[2]);
    if n == TWO32 - 1 {
      es := lock;
    } else {
      var s2 := Unlocks(s1, n);
      Three(Step, s1, Do(0, Go), Do(0, Go), Do(0, Go));
      var rest := GoAround(s2, n + 1);
      es := lock + ([Do(0, Go), Do(0, Go), Do(0, Go)] + rest);
      RunConcat(Step, s1, [Do(0, Go), Do(0, Go), Do(0, Go)], rest);
      RunConcat(Step, s, lock, [Do(0, Go), Do(0, Go), Do(0, Go)] + rest);
    }
  }

  /** A `try_lock` suspended between its load and its CAS while 2^32 tickets pass breaks mutual exclusion. */
  lemma StaleTryLockBreaksExclusion() returns (es: seq<Event>)
    ensures var s := Run(Step, Init(false, {0, 1}), es);
            0 in s.threads && 1 in s.threads && Inside(s.threads[0]) && Inside(s.threads[1])
  {
    var s0 := Init(false, {0, 1});
    var s1 := Step(s0, Do(1, Call(TryLock)));
    var s2 := Step(s1, Do(1, Go));
    assert Stale(s2, 0, 0, Idle);
    var around := GoAround(s2, 0);
    var s3 := Run(Step, s2, around);
    var last := Do(1, Go);
    Append(Step, s2, around, last);
    es := [Do(1, Call(TryLock))] + ([Do(1, Go)] + (around + [last]));
    Prepend(Step, s1, Do(1, Go), around + [last]);
    Prepend(Step, s0, Do(1, Call(TryLock)), [Do(1, Go)] + (around + [last]));
  }
}
