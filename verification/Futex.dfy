/**
 The Linux futex layer: `atomic_wait`, `atomic_wait_for` and `atomic_wait_until` as loops over a word
 that other threads write. What the environment answers is an input: at its k-th instruction a wait
 finds the k-th word when it loads, and gets the k-th kernel result when it calls the kernel.
 */
module Futex {
  import opened Runs
  import opened Words

  /** What FUTEX_WAIT returns: 0, EAGAIN, EINTR, ETIMEDOUT, or any other error. */
  datatype Result = Woken | Again | Interrupted | TimedOut | Failed

  datatype Instant = Instant(word: Int32, result: Result)

  /** Where a wait is. `Look(n)` is the load with n loads left before the first system call. */
  datatype At = Look(left: nat) | Syscall | Check | LastLook | Returned(changed: bool)

  const ACTIVE_SPINS: nat := 10
  const YIELD_SPINS: nat := 4

  function Looking(left: nat): At {
    if left == 0 then Syscall else Look(left)
  }

  function AfterLoad(at: At, differs: bool): At {
    match at
    case Look(n) => if differs then Returned(true) else Looking(if n > 0 then n - 1 else 0)
    case Check => if differs then Returned(true) else Syscall
    case LastLook => Returned(differs)
    case _ => at
  }

  function AfterCall(timed: bool, r: Result): At {
    match r
    case Woken => Check
    case Again => Check
    case Interrupted => Syscall
    case TimedOut => if timed then LastLook else Returned(false)
    case Failed => Returned(false)
  }

  /** A wait under way, with the loads it did and the kernel results it got so far. */
  datatype Call = Call(timed: bool, expected: Int32, at: At, loads: seq<Int32>, results: seq<Result>)

  function Begin(timed: bool, expected: Int32, at: At): Call {
    Call(timed, expected, at, [], [])
  }

  /** One instruction. */
  function Step(c: Call, e: Instant): Call {
    match c.at
    case Returned(_) => c
    case Syscall => c.(at := AfterCall(c.timed, e.result), results := c.results + [e.result])
    case _ => c.(at := AfterLoad(c.at, e.word != c.expected), loads := c.loads + [e.word])
  }

  lemma {:induction false} ReturnedStays(c: Call, env: seq<Instant>)
    requires c.at.Returned?
    ensures Run(Step, c, env) == c
  {
    if env != [] {
      ReturnedStays(c, env[1..]);
    }
  }

  // ----- the three functions

  /** The untimed wait: spinning, then yielding, then sleeping. */
  method AtomicWait(expected: Int32, env: seq<Instant>) returns (r: Call)
    ensures r == Run(Step, Begin(false, expected, Look(ACTIVE_SPINS + YIELD_SPINS)), env)
  {
    var k := 0;
    r := Begin(false, expected, Look(ACTIVE_SPINS + YIELD_SPINS));
    ghost var result := Run(Step, r, env);
    for i := 0 to ACTIVE_SPINS
      invariant 0 <= k <= |env| && r == Call(false, expected, Look(ACTIVE_SPINS - i + YIELD_SPINS), r.loads, [])
      invariant Run(Step, r, env[k..]) == result
    {
      if k == |env| { return; }
      var seen := env[k].word;
      var next := Look(ACTIVE_SPINS - i - 1 + YIELD_SPINS);
      r := r.(loads := r.loads + [seen], at := if seen != expected then Returned(true) else next);
      k := k + 1;
      if seen != expected { ReturnedStays(r, env[k..]); return; }
    }
    for i := 0 to YIELD_SPINS
      invariant 0 <= k <= |env| && r == Call(false, expected, Looking(YIELD_SPINS - i), r.loads, [])
      invariant Run(Step, r, env[k..]) == result
    {
      if k == |env| { return; }
      var seen := env[k].word;
      var next := Looking(YIELD_SPINS - i - 1);
      r := r.(loads := r.loads + [seen], at := if seen != expected then Returned(true) else next);
      k := k + 1;
      if seen != expected { ReturnedStays(r, env[k..]); return; }
    }
    r := Sleep(r, env, k);
  }

  /** Both overloads of `atomic_wait_until`; the deadline is the environment's `TimedOut`. */
  method AtomicWaitUntil(expected: Int32, env: seq<Instant>) returns (r: Call)
    ensures r == Run(Step, Begin(true, expected, Look(1)), env)
  {
    r := Begin(true, expected, Look(1));
    if |env| == 0 { return; }
    var seen := env[0].word;
    r := r.(loads := r.loads + [seen], at := if seen != expected then Returned(true) else Syscall);
    if seen != expected { ReturnedStays(r, env[1..]); return; }
    r := Sleep(r, env, 1);
  }

  /** A wait for no time at all is one load. */
  method AtomicWaitFor(expected: Int32, rel: int, env: seq<Instant>) returns (r: Call)
    ensures r == Run(Step, Begin(true, expected, if rel <= 0 then LastLook else Look(1)), env)
  {
    if rel <= 0 {
      r := Begin(true, expected, LastLook);
      if |env| > 0 {
        r := r.(loads := r.loads + [env[0].word], at := Returned(env[0].word != expected));
        ReturnedStays(r, env[1..]);
      }
    } else {
      r := AtomicWaitUntil(expected, env);
    }
  }

  /** The loop around the system call, from instant `start` on. */
  method Sleep(c: Call, env: seq<Instant>, start: nat) returns (r: Call)
    requires start <= |env| && c.at.Syscall?
    ensures r == Run(Step, c, env[start..])
  {
    var k := start;
    r := c;
    while true
      invariant start <= k <= |env| && r == Call(c.timed, c.expected, Syscall, r.loads, r.results)
      invariant Run(Step, r, env[k..]) == Run(Step, c, env[start..])
      decreases |env| - k
    {
      if k == |env| { return; }
      var rc := env[k].result;
      r := r.(results := r.results + [rc]);
      k := k + 1;
      if rc.Woken? || rc.Again? {
        if k == |env| { return r.(at := Check); }
        var seen := env[k].word;
        r := r.(loads := r.loads + [seen]);
        k := k + 1;
        if seen != c.expected {
          r := r.(at := Returned(true));
          ReturnedStays(r, env[k..]);
          return;
        }
      } else if rc.TimedOut? && c.timed {
        if k == |env| { return r.(at := LastLook); }
        r := r.(loads := r.loads + [env[k].word], at := Returned(env[k].word != c.expected));
        ReturnedStays(r, env[k + 1..]);
        return;
      } else if !rc.Interrupted? {
        r := r.(at := Returned(false));
        ReturnedStays(r, env[k..]);
        return;
      }
    }
  }

  // ----- what a return says

  predicate Retries(r: Result) {
    r.Woken? || r.Again? || r.Interrupted?
  }

  predicate LastDiffers(c: Call) {
    c.loads != [] && c.loads[|c.loads| - 1] != c.expected
  }

  ghost predicate Inv(c: Call) {
    && (forall i :: 0 <= i < |c.loads| - 1 ==> c.loads[i] == c.expected)
    && (forall i :: 0 <= i < |c.results| - 1 ==> Retries(c.results[i]))
    && (c.at == Returned(true) <==> LastDiffers(c))
    && match c.at
       case Look(n) => n > 0 && c.results == []
       case Syscall => c.loads != [] && (c.results != [] ==> Retries(Last(c)))
       case Check => c.loads != [] && c.results != [] && Retries(Last(c))
       case LastLook => c.timed && (if c.results == [] then c.loads == [] else Last(c).TimedOut?)
       case Returned(true) => c.results == [] || Retries(Last(c)) || (c.timed && Last(c).TimedOut?)
       case Returned(false) =>
         && c.loads != []
         && (if c.results == [] then c.timed && |c.loads| == 1 else Last(c).Failed? || Last(c).TimedOut?)
  }

  function Last(c: Call): Result
    requires c.results != []
  {
    c.results[|c.results| - 1]
  }

  lemma StepKeepsInv(c: Call, e: Instant)
    requires Inv(c)
    ensures Inv(Step(c, e))
  {
    var d := Step(c, e);
    assert forall i :: 0 <= i < |c.loads| ==> d.loads[i] == c.loads[i];
    assert forall i :: 0 <= i < |c.results| ==> d.results[i] == c.results[i];
  }

  lemma {:induction false} ReachableInv(timed: bool, expected: Int32, at: At, env: seq<Instant>)
    requires (at.Look? && at.left > 0) || (at.LastLook? && timed)
    ensures Inv(Run(Step, Begin(timed, expected, at), env))
  {
    forall x, e | Inv(x) ensures Inv(Step(x, e)) { StepKeepsInv(x, e); }
    AlwaysInvariant(Step, Inv, Begin(timed, expected, at), env);
  }

  /** The untimed wait comes back from a load that differs, and before it saw no other, exactly if the kernel
      gave no result but success, EAGAIN and EINTR; after any other result it comes back without a load. */
  lemma WaitReturnsAfterChange(expected: Int32, env: seq<Instant>)
    ensures var c := Run(Step, Begin(false, expected, Look(ACTIVE_SPINS + YIELD_SPINS)), env);
            && (forall i :: 0 <= i < |c.loads| - 1 ==> c.loads[i] == expected)
            && (c.at.Returned? ==> (LastDiffers(c) <==> forall i :: 0 <= i < |c.results| ==> Retries(c.results[i])))
            && (LastDiffers(c) ==> c.at.Returned?)
  {
    ReachableInv(false, expected, Look(ACTIVE_SPINS + YIELD_SPINS), env);
    KeepsArguments(Begin(false, expected, Look(ACTIVE_SPINS + YIELD_SPINS)), env);
  }

  /** A timed wait returns true exactly if its last load differs, and false only after a last load that does
      not, which follows a timeout, an error, or the refusal to wait for no time at all. */
  lemma TimedWaitTellsTheTruth(expected: Int32, noTime: bool, env: seq<Instant>)
    ensures var c := Run(Step, Begin(true, expected, if noTime then LastLook else Look(1)), env);
            && (forall i :: 0 <= i < |c.loads| - 1 ==> c.loads[i] == expected)
            && (c.at == Returned(true) <==> LastDiffers(c))
            && (c.at == Returned(false) ==>
                  && c.loads != [] && c.loads[|c.loads| - 1] == expected
                  && (c.results != [] ==> Last(c).TimedOut? || Last(c).Failed?)
                  && (c.results == [] ==> |c.loads| == 1))
  {
    ReachableInv(true, expected, if noTime then LastLook else Look(1), env);
    KeepsArguments(Begin(true, expected, if noTime then LastLook else Look(1)), env);
  }

  lemma {:induction false} KeepsArguments(c: Call, env: seq<Instant>)
    ensures var d := Run(Step, c, env); d.timed == c.timed && d.expected == c.expected
    decreases |env|
  {
    if env != [] {
      KeepsArguments(Step(c, env[0]), env[1..]);
    }
  }

  /** Once the word differs and stays so, a wait that the kernel lets go returns within two instructions. */
  lemma ReturnsOnceChanged(c: Call, a: Instant, b: Instant)
    requires !c.at.Returned? && a.word != c.expected && b.word != c.expected
    requires c.at.Syscall? ==> a.result.Woken? || a.result.Again? || (c.timed && a.result.TimedOut?)
    ensures Run(Step, c, [a, b]).at == Returned(true)
  {
    TwoSteps(c, a, b);
  }

  lemma TwoSteps(c: Call, a: Instant, b: Instant)
    ensures Run(Step, c, [a, b]) == Step(Step(c, a), b)
  {
    assert [a, b][1..] == [b] && [b][1..] == [];
    assert Run(Step, Step(c, a), [b]) == Step(Step(c, a), b);
  }
}
