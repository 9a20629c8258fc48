/**
 The shared (reader-writer) spinlock: bit 31 of the word is the writer's lock, bit 30
 announces a waiting writer, and the rest counts the readers.

 One event executes one atomic instruction of one thread. An event that is not
 enabled leaves the state alone.
 */
module SharedSpinlock {
  import opened Options
  import opened Runs
  import opened ThreadMaps
  import opened Words

  const TWO30: int := 0x4000_0000

  /** The three parts of the `uint32_t`. */
  datatype RwWord = RwWord(readers: nat, pending: bool, locked: bool) {

    /** The `uint32_t` itself. */
    function Bits(): nat {
      readers + (if pending then TWO30 else 0) + (if locked then TWO31 else 0)
    }

    /** `w + 1`, carrying out of the reader bits and wrapping around. */
    function Incremented(): RwWord {
      if readers + 1 < TWO30 then RwWord(readers + 1, pending, locked)
      else RwWord(0, !pending, if pending then !locked else locked)
    }

    /** `w - 1`, borrowing from the flag bits and wrapping around. */
    function Decremented(): RwWord {
      if readers > 0 then RwWord(readers - 1, pending, locked)
      else RwWord(TWO30 - 1, !pending, if pending then locked else !locked)
    }

    /** `(w & ~write_pending) | write_locked` */
    function Written(): RwWord {
      RwWord(readers, false, true)
    }

    /** `w & ~write_locked` */
    function Released(): RwWord {
      RwWord(readers, pending, false)
    }

    /** `w & (write_locked | write_pending)` */
    predicate Busy() {
      locked || pending
    }
  }

  const EMPTY := RwWord(0, false, false)

  /** Counting readers on the parts is the code's addition and subtraction on the `uint32_t`. */
  lemma BitsAgree(w: RwWord)
    requires w.readers < TWO30
    ensures w.Bits() < TWO32
    ensures w.Incremented().readers < TWO30 && w.Incremented().Bits() == Add(w.Bits(), 1)
    ensures w.Decremented().readers < TWO30 && w.Decremented().Bits() == Sub(w.Bits(), 1)
  {
  }

  /** The flags are bits 30 and 31, and the masks act on them. */
  lemma MasksAgree(w: RwWord)
    requires w.readers < TWO30
    ensures w.readers == w.Bits() % TWO30
    ensures w.pending <==> w.Bits() / TWO30 % 2 == 1
    ensures w.locked <==> w.Bits() >= TWO31
    ensures w == EMPTY <==> w.Bits() == 0
  {
  }

  /** Writing the flags on the parts is the masking of the `uint32_t`. */
  lemma WritesAgree(w: RwWord)
    requires w.readers < TWO30
    ensures w.(pending := true).Bits() == if w.pending then w.Bits() else w.Bits() + TWO30
    ensures w.Written().Bits() == w.Bits() % TWO30 + TWO31
    ensures w.Released().Bits() == w.Bits() % TWO31
  {
  }

  /** Which function runs the reader's load and CAS. */
  datatype Caller = LockShared | LockSharedSlow | TryLockShared

  datatype Pc =
    | Idle
    | LockFast
    | LockLoad                   // lock_slow: load, again while a writer holds
    | SetPending(expected: RwWord)
    | DrainLoad                  // load, again while readers remain or a writer holds
    | LockCas(expected: RwWord)
    | TryLockLoad
    | TryLockCas(expected: RwWord)
    | Writer
    | SharedLoad(caller: Caller)
    | SharedCas(caller: Caller, expected: RwWord)
    | Reader

  datatype Operation = Lock | TryLock | Shared | TryShared

  /** `Flake` is a weak CAS that fails. */
  datatype Choice = Go | Flake | Call(op: Operation)
  datatype Event = Do(t: Tid, c: Choice)

  /** History: the last thread that set the pending bit, and how often writers and readers acquired. */
  datatype State = State(word: RwWord, threads: map<Tid, Pc>, setter: Option<Tid>, writeEntries: nat, readEntries: nat)

  function Init(threads: set<Tid>): State {
    State(EMPTY, map t | t in threads :: Idle, None, 0, 0)
  }

  function Enter(op: Operation): Pc {
    match op
    case Lock => LockFast
    case TryLock => TryLockLoad
    case Shared => SharedLoad(LockShared)
    case TryShared => SharedLoad(TryLockShared)
  }

  /** `lock`, `lock_slow`, `try_lock` and `unlock` */
  function ActWriter(pc: Pc, word: RwWord, c: Choice): (Pc, RwWord) {
    match pc
    case LockFast => if word == EMPTY then (Writer, word.Written()) else (LockLoad, word)
    case LockLoad =>
      (if word.locked then pc
       else if word.readers > 0 then (if word.pending then DrainLoad else SetPending(word))
       else LockCas(word), word)
    case SetPending(expected) =>
      if c.Go? && word == expected then (DrainLoad, expected.(pending := true)) else (LockLoad, word)
    case DrainLoad => (if word.readers > 0 || word.locked then pc else LockCas(word), word)
    case LockCas(expected) =>
      if c.Go? && word == expected then (Writer, expected.Written()) else (LockLoad, word)
    case TryLockLoad => (if word.readers == 0 && !word.locked then TryLockCas(word) else Idle, word)
    case TryLockCas(expected) => if word == expected then (Writer, expected.Written()) else (Idle, word)
    case Writer => if c.Go? then (Idle, word.Released()) else (pc, word)
    case _ => (pc, word)
  }

  /** `lock_shared`, `lock_shared_slow`, `try_lock_shared` and `unlock_shared` */
  function ActReader(pc: Pc, word: RwWord, c: Choice): (Pc, RwWord) {
    match pc
    case SharedLoad(caller) => (if word.Busy() then Refused(caller) else SharedCas(caller, word), word)
    case SharedCas(caller, expected) =>
      if word == expected && !(c.Flake? && caller.LockSharedSlow?) then (Reader, expected.Incremented())
      else (Refused(caller), word)
    case Reader => if c.Go? then (Idle, word.Decremented()) else (pc, word)
    case _ => (pc, word)
  }

  function Refused(caller: Caller): Pc {
    if caller.TryLockShared? then Idle else SharedLoad(LockSharedSlow)
  }

  function Act(pc: Pc, word: RwWord, c: Choice): (Pc, RwWord) {
    if pc.Idle? then (if c.Call? then Enter(c.op) else Idle, word)
    else if Reads(pc) then ActReader(pc, word, c)
    else ActWriter(pc, word, c)
  }

  /** The state after thread `t` moved to `pc` and left `word` in memory. */
  function Moved(s: State, t: Tid, pc: Pc, word: RwWord): State
    requires t in s.threads
  {
    State(word, s.threads[t := pc],
          if !s.word.pending && word.pending then Some(t) else s.setter,
          s.writeEntries + One(Writing(pc) && !Writing(s.threads[t])),
          s.readEntries + One(Reading(pc) && !Reading(s.threads[t])))
  }

  function Step(s: State, e: Event): State {
    if e.t !in s.threads then s
    else
      var (pc, word) := Act(s.threads[e.t], s.word, e.c);
      Moved(s, e.t, pc, word)
  }

  // ----- classes of program counters

  predicate Reads(pc: Pc) {
    pc.SharedLoad? || pc.SharedCas? || pc.Reader?
  }

  predicate Writing(pc: Pc) {
    pc.Writer?
  }

  predicate Reading(pc: Pc) {
    pc.Reader?
  }

  predicate InLockSlow(pc: Pc) {
    pc.LockLoad? || pc.SetPending? || pc.DrainLoad? || pc.LockCas?
  }

  // ----- the invariant

  /** Either one writer and exactly bit 31, or the exact number of readers and perhaps the pending bit. */
  ghost predicate WordForm(word: RwWord, writers: int, readers: int) {
    || (writers == 1 && readers == 0 && word == RwWord(0, false, true))
    || (writers == 0 && readers >= 0 && word == RwWord(readers, word.pending, false))
  }

  predicate LocalOk(pc: Pc) {
    && (pc.SetPending? ==> !pc.expected.Busy() && pc.expected.readers > 0)
    && (pc.LockCas? || pc.TryLockCas? ==> !pc.expected.locked && pc.expected.readers == 0)
    && (pc.SharedCas? ==> !pc.expected.Busy())
  }

  /** A set pending bit was set by a thread that is still trying to lock. */
  ghost predicate PendingOwned(s: State) {
    s.word.pending ==> s.setter.Some? && s.setter.value in s.threads && InLockSlow(s.threads[s.setter.value])
  }

  ghost predicate Inv(s: State) {
    && |s.threads| < TWO30
    && WordForm(s.word, Count(s.threads, Writing), Count(s.threads, Reading))
    && PendingOwned(s)
    && forall t :: t in s.threads ==> LocalOk(s.threads[t])
  }

  // ----- one instruction, seen from the thread that executes it

  ghost predicate Known(pc: Pc, word: RwWord, writers: nat, readers: nat) {
    && WordForm(word, writers, readers) && LocalOk(pc)
    && (Writing(pc) ==> writers > 0)
    && (if Reading(pc) then readers > 0 else readers + 1 < TWO30)
  }

  ghost predicate Keeps(pc: Pc, word: RwWord, r: (Pc, RwWord), writers: nat, readers: nat) {
    && WordForm(r.1, writers - One(Writing(pc)) + One(Writing(r.0)), readers - One(Reading(pc)) + One(Reading(r.0)))
    && LocalOk(r.0)
    && (r.1.pending && !word.pending ==> InLockSlow(r.0))
    && (InLockSlow(pc) && r.1.pending ==> InLockSlow(r.0))
  }

  lemma WriterKeeps(pc: Pc, word: RwWord, c: Choice, writers: nat, readers: nat)
    requires Known(pc, word, writers, readers) && !Reads(pc)
    ensures Keeps(pc, word, ActWriter(pc, word, c), writers, readers)
  {
  }

  lemma ReaderKeeps(pc: Pc, word: RwWord, c: Choice, writers: nat, readers: nat)
    requires Known(pc, word, writers, readers) && Reads(pc)
    ensures Keeps(pc, word, ActReader(pc, word, c), writers, readers)
  {
  }

  // ----- the whole machine

  lemma Counts(m: map<Tid, Pc>, t: Tid, pc: Pc)
    requires t in m
    ensures |m[t := pc]| == |m|
    ensures Count(m[t := pc], Writing) == Count(m, Writing) - One(Writing(m[t])) + One(Writing(pc))
    ensures Count(m[t := pc], Reading) == Count(m, Reading) - One(Reading(m[t])) + One(Reading(pc))
  {
    CountUpdate(m, t, pc, Writing);
    CountUpdate(m, t, pc, Reading);
  }

  lemma ThreadMayAssume(s: State, t: Tid)
    requires Inv(s) && t in s.threads
    ensures Known(s.threads[t], s.word, Count(s.threads, Writing), Count(s.threads, Reading))
  {
    if Writing(s.threads[t]) { CountHas(s.threads, t, Writing); }
    if Reading(s.threads[t]) {
      CountHas(s.threads, t, Reading);
    } else {
      Counts(s.threads, t, Reader);
      CountAtMost(s.threads[t := Reader], Reading);
    }
  }

  lemma StepKeepsInv(s: State, e: Event)
    requires Inv(s)
    ensures Inv(Step(s, e))
  {
    if e.t in s.threads {
      var pc, writers, readers := s.threads[e.t], Count(s.threads, Writing), Count(s.threads, Reading);
      ThreadMayAssume(s, e.t);
      if Reads(pc) {
        ReaderKeeps(pc, s.word, e.c, writers, readers);
      } else if !pc.Idle? {
        WriterKeeps(pc, s.word, e.c, writers, readers);
      }
      Counts(s.threads, e.t, Act(pc, s.word, e.c).0);
      MovedKeepsInv(s, e.t, Act(pc, s.word, e.c));
    }
  }

  lemma MovedKeepsInv(s: State, t: Tid, r: (Pc, RwWord))
    requires Inv(s) && t in s.threads
    requires Keeps(s.threads[t], s.word, r, Count(s.threads, Writing), Count(s.threads, Reading))
    ensures Inv(Moved(s, t, r.0, r.1))
  {
    Counts(s.threads, t, r.0);
  }

  // ----- every run

  lemma ReachableInv(threads: set<Tid>, es: seq<Event>)
    requires |threads| < TWO30
    ensures Inv(Run(Step, Init(threads), es))
  {
    var s0 := Init(threads);
    assert s0.threads.Keys == threads;
    CountZero(s0.threads, Writing);
    CountZero(s0.threads, Reading);
    forall x, e | Inv(x) ensures Inv(Step(x, e)) { StepKeepsInv(x, e); }
    AlwaysInvariant(Step, Inv, s0, es);
  }

  /** The word is exactly 2^31 while a writer holds, and then nobody else does; otherwise it is the number
      of readers plus 2^30 if a writer waits, and the waiting writer that said so is still in `lock_slow`. */
  lemma WritersExcludeEveryone(threads: set<Tid>, es: seq<Event>, w: Tid)
    requires |threads| < TWO30
    ensures var s := Run(Step, Init(threads), es);
            && (w in s.threads && Writing(s.threads[w]) ==>
                  && s.word.Bits() == TWO31
                  && forall t :: t in s.threads && t != w ==> !Writing(s.threads[t]) && !Reading(s.threads[t]))
            && ((forall t :: t in s.threads ==> !Writing(s.threads[t])) ==>
                  s.word.Bits() == Count(s.threads, Reading) + if s.word.pending then TWO30 else 0)
            && (s.word.pending ==>
                  s.setter.Some? && s.setter.value in s.threads && InLockSlow(s.threads[s.setter.value]))
  {
    var s := Run(Step, Init(threads), es);
    ReachableInv(threads, es);
    CountZero(s.threads, Writing);
    CountZero(s.threads, Reading);
    if w in s.threads && Writing(s.threads[w]) {
      CountHas(s.threads, w, Writing);
      forall t | t in s.threads && Writing(s.threads[t]) ensures t == w {
        CountUnique(s.threads, Writing, t, w);
      }
    }
  }

  /** An unlock by the writer leaves the word zero. */
  lemma UnlockLeavesZero(threads: set<Tid>, es: seq<Event>, w: Tid)
    requires |threads| < TWO30
    ensures var s := Run(Step, Init(threads), es);
            w in s.threads && Writing(s.threads[w]) ==> Step(s, Do(w, Go)).word.Bits() == 0
  {
    var s := Run(Step, Init(threads), es);
    ReachableInv(threads, es);
    if w in s.threads && Writing(s.threads[w]) {
      CountHas(s.threads, w, Writing);
    }
  }

  // ----- the pending bit over whole runs

  /** One instruction of a thread that does not become the writer, while a writer waits. */
  lemma PendingAct(pc: Pc, word: RwWord, c: Choice)
    requires word.pending && !word.locked && LocalOk(pc) && !Writing(pc) && (Reading(pc) ==> word.readers > 0)
    ensures var (pc', word') := Act(pc, word, c);
            || Writing(pc')
            || (word'.pending && word'.readers <= word.readers && (Reading(pc') ==> Reading(pc)))
  {
  }

  lemma PendingStep(s: State, e: Event)
    requires Inv(s) && s.word.pending && Step(s, e).writeEntries == s.writeEntries
    ensures var s' := Step(s, e);
            && s'.word.pending && s'.readEntries == s.readEntries && s'.word.readers <= s.word.readers
            && Where(s'.threads, Reading) <= Where(s.threads, Reading)
  {
    if e.t in s.threads {
      ThreadMayAssume(s, e.t);
      PendingAct(s.threads[e.t], s.word, e.c);
    }
  }

  lemma {:induction false} WriteEntriesGrow(s: State, es: seq<Event>)
    ensures Run(Step, s, es).writeEntries >= s.writeEntries
    decreases |es|
  {
    if es != [] {
      WriteEntriesGrow(Step(s, es[0]), es[1..]);
    }
  }

  /** Until the next writer gets in, a set pending bit stays set and no reader acquires. */
  lemma {:induction false} PendingShutsOutReaders(s: State, es: seq<Event>)
    requires Inv(s) && s.word.pending && Run(Step, s, es).writeEntries == s.writeEntries
    ensures var s' := Run(Step, s, es);
            && s'.word.pending && s'.readEntries == s.readEntries && s'.word.readers <= s.word.readers
            && Where(s'.threads, Reading) <= Where(s.threads, Reading)
    decreases |es|
  {
    if es != [] {
      WriteEntriesGrow(Step(s, es[0]), es[1..]);
      PendingStep(s, es[0]);
      StepKeepsInv(s, es[0]);
      PendingShutsOutReaders(Step(s, es[0]), es[1..]);
    }
  }

  predicate Ordinary(e: Event) {
    e.c.Go?
  }

  /** Instructions thread `w` needs when only the pending bit is set. */
  function Distance(pc: Pc, word: RwWord): nat {
    match pc
    case LockLoad => 2
    case SetPending(_) => 3
    case DrainLoad => 2
    case LockCas(expected) => if expected == word then 1 else 3
    case _ => 0
  }

  lemma SetterApproaches(s: State, w: Tid)
    requires Inv(s) && s.word == RwWord(0, true, false) && w in s.threads && InLockSlow(s.threads[w])
    ensures var s' := Step(s, Do(w, Go));
            && w in s'.threads
            && if Distance(s.threads[w], s.word) == 1 then Writing(s'.threads[w])
               else && s'.word == s.word && InLockSlow(s'.threads[w])
                    && Distance(s'.threads[w], s.word) < Distance(s.threads[w], s.word)
  {
  }

  lemma {:induction false} SetterGetsIn(s: State, w: Tid) returns (es: seq<Event>)
    requires Inv(s) && s.word == RwWord(0, true, false) && w in s.threads && InLockSlow(s.threads[w])
    ensures Only(Ordinary, es) && |es| <= Distance(s.threads[w], s.word)
    ensures var s' := Run(Step, s, es); w in s'.threads && Writing(s'.threads[w])
    decreases Distance(s.threads[w], s.word)
  {
    var e := Do(w, Go);
    SetterApproaches(s, w);
    StepKeepsInv(s, e);
    if Distance(s.threads[w], s.word) == 1 {
      es := [e];
      Prepend(Step, s, e, []);
    } else {
      var rest := SetterGetsIn(Step(s, e), w);
      es := [e] + rest;
      Prepend(Step, s, e, rest);
    }
  }

  lemma ReaderLeaves(s: State, r: Tid, w: Tid)
    requires Inv(s) && s.word.pending && r in s.threads && Reading(s.threads[r])
    requires w in s.threads && InLockSlow(s.threads[w])
    ensures var s' := Step(s, Do(r, Go));
            && Inv(s') && s'.word.pending && s'.word.readers == s.word.readers - 1
            && w in s'.threads && InLockSlow(s'.threads[w])
  {
    StepKeepsInv(s, Do(r, Go));
    CountHas(s.threads, r, Reading);
  }

  /** The pending bit is never abandoned: once the readers inside have left, its setter gets the lock by
      three of its own instructions at most, from every reachable state. */
  lemma {:induction false} PendingWriterGetsIn(s: State, w: Tid) returns (es: seq<Event>)
    requires Inv(s) && s.word.pending && w in s.threads && InLockSlow(s.threads[w])
    ensures Only(Ordinary, es) && |es| <= s.word.readers + 3
    ensures var s' := Run(Step, s, es); w in s'.threads && Writing(s'.threads[w])
    decreases s.word.readers
  {
    if s.word.readers == 0 {
      es := SetterGetsIn(s, w);
    } else {
      var r := CountWitness(s.threads, Reading);
      ReaderLeaves(s, r, w);
      var rest := PendingWriterGetsIn(Step(s, Do(r, Go)), w);
      es := [Do(r, Go)] + rest;
      Prepend(Step, s, Do(r, Go), rest);
    }
  }
}
