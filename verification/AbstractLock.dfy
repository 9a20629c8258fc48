/** What a mutex is for: an optional owner, taken when free and released by its owner. */
module AbstractLock {
  import opened ThreadMaps

  datatype Action = Acquire(t: Tid) | Release(t: Tid)

  datatype Owner = Free | HeldBy(t: Tid) | Broken

  function Apply(o: Owner, a: Action): Owner {
    match a
    case Acquire(t) => if o.Free? then HeldBy(t) else Broken
    case Release(t) => if o == HeldBy(t) then Free else Broken
  }

  /** The owner after a history of actions; `Broken` once an action was not allowed. */
  function Replay(log: seq<Action>): Owner {
    if log == [] then Free else Apply(Replay(log[..|log| - 1]), log[|log| - 1])
  }

  lemma ReplayAppend(log: seq<Action>, a: Action)
    ensures Replay(log + [a]) == Apply(Replay(log), a)
  {
    assert (log + [a])[..|log|] == log;
  }
}
