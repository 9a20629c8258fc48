/** Counting over the program counters of an arbitrary finite set of threads. */
module ThreadMaps {

  type Tid = nat

  /** The threads whose program counter satisfies `p`. */
  function Where<P>(m: map<Tid, P>, p: P -> bool): set<Tid> {
    set t | t in m && p(m[t])
  }

  /** How many threads satisfy `p`. */
  function Count<P>(m: map<Tid, P>, p: P -> bool): nat {
    |Where(m, p)|
  }

  function One(b: bool): nat {
    if b then 1 else 0
  }

  /** Apply `f` to every program counter; what a wake-all does to the sleepers. */
  function MapAll<P, Q>(m: map<Tid, P>, f: P -> Q): map<Tid, Q> {
    map t | t in m :: f(m[t])
  }

  lemma CountUpdate<P>(m: map<Tid, P>, t: Tid, v: P, p: P -> bool)
    requires t in m
    ensures Count(m[t := v], p) == Count(m, p) - One(p(m[t])) + One(p(v))
    ensures |m[t := v]| == |m|
  {
    var rest := Where(m, p) - {t};
    assert Where(m, p) == if p(m[t]) then rest + {t} else rest;
    assert Where(m[t := v], p) == if p(v) then rest + {t} else rest;
    assert m[t := v].Keys == m.Keys;
    assert |m[t := v].Keys| == |m[t := v]| && |m.Keys| == |m|;
  }

  lemma CountZero<P>(m: map<Tid, P>, p: P -> bool)
    ensures Count(m, p) == 0 <==> forall t :: t in m ==> !p(m[t])
  {
    if t :| t in m && p(m[t]) {
      assert t in Where(m, p);
    }
    if Count(m, p) != 0 {
      var t :| t in Where(m, p);
    }
  }

  lemma CountHas<P>(m: map<Tid, P>, t: Tid, p: P -> bool)
    requires t in m && p(m[t])
    ensures Count(m, p) >= 1
  {
    assert t in Where(m, p);
  }

  lemma CountWitness<P>(m: map<Tid, P>, p: P -> bool) returns (t: Tid)
    requires Count(m, p) > 0
    ensures t in m && p(m[t])
  {
    t :| t in Where(m, p);
  }

  /** With at most one thread satisfying `p`, any two that do are the same. */
  lemma CountUnique<P>(m: map<Tid, P>, p: P -> bool, a: Tid, b: Tid)
    requires Count(m, p) <= 1
    requires a in m && p(m[a]) && b in m && p(m[b])
    ensures a == b
  {
    if a != b {
      assert |{a, b}| == 2;
      SubsetSize({a, b}, Where(m, p));
    }
  }

  lemma {:induction false} SubsetSize<T>(a: set<T>, b: set<T>)
    requires a <= b
    ensures |a| <= |b|
  {
    assert b == a + (b - a);
  }

  lemma CountAtMost<P>(m: map<Tid, P>, p: P -> bool)
    ensures Count(m, p) <= |m|
  {
    SubsetSize(Where(m, p), m.Keys);
    assert |m.Keys| == |m|;
  }

  /** Two classes of threads that do not overlap fit together into the map. */
  lemma CountDisjoint<P(!new)>(m: map<Tid, P>, p: P -> bool, q: P -> bool)
    requires forall x :: !(p(x) && q(x))
    ensures Count(m, p) + Count(m, q) <= |m|
  {
    assert Where(m, p) !! Where(m, q);
    assert |Where(m, p) + Where(m, q)| == Count(m, p) + Count(m, q);
    SubsetSize(Where(m, p) + Where(m, q), m.Keys);
    assert |m.Keys| == |m|;
  }

  lemma CountMapAll<P(!new), Q>(m: map<Tid, P>, f: P -> Q, p: Q -> bool, q: P -> bool)
    requires forall x :: p(f(x)) == q(x)
    ensures Count(MapAll(m, f), p) == Count(m, q)
    ensures |MapAll(m, f)| == |m|
  {
    assert Where(MapAll(m, f), p) == Where(m, q);
    assert MapAll(m, f).Keys == m.Keys;
    assert |MapAll(m, f).Keys| == |MapAll(m, f)| && |m.Keys| == |m|;
  }

  /** The values an injective `f` takes on a set of threads. */
  function Values<P>(m: map<Tid, P>, ts: set<Tid>, f: P -> int): set<int>
    requires ts <= m.Keys
  {
    set t | t in ts :: f(m[t])
  }

  lemma {:induction false} ValuesSize<P>(m: map<Tid, P>, ts: set<Tid>, f: P -> int)
    requires ts <= m.Keys
    requires forall a, b :: a in ts && b in ts && a != b ==> f(m[a]) != f(m[b])
    ensures |Values(m, ts, f)| == |ts|
    decreases ts
  {
    if ts != {} {
      var t :| t in ts;
      ValuesSize(m, ts - {t}, f);
      assert Values(m, ts, f) == Values(m, ts - {t}, f) + {f(m[t])};
    }
  }

  function Range(lo: int, hi: int): (r: set<int>)
    ensures forall i :: i in r <==> lo <= i < hi
    decreases hi - lo
  {
    if lo >= hi then {} else Range(lo, hi - 1) + {hi - 1}
  }

  lemma {:induction false} RangeSize(lo: int, hi: int)
    requires lo <= hi
    ensures |Range(lo, hi)| == hi - lo
    decreases hi - lo
  {
    if lo < hi {
      RangeSize(lo, hi - 1);
    }
  }

  lemma SubsetSameSize<T>(a: set<T>, b: set<T>)
    requires a <= b && |a| == |b|
    ensures a == b
  {
    assert b == a + (b - a);
  }

  /** The sum of `f` over all threads. */
  ghost function Sum<P>(m: map<Tid, P>, f: P -> nat): nat {
    SumOver(m, m.Keys, f)
  }

  ghost function SumOver<P>(m: map<Tid, P>, ts: set<Tid>, f: P -> nat): nat
    requires ts <= m.Keys
  {
    if ts == {} then 0 else var t :| t in ts; f(m[t]) + SumOver(m, ts - {t}, f)
  }

  /** The order of summation does not matter. */
  lemma {:induction false} SumSplit<P>(m: map<Tid, P>, ts: set<Tid>, f: P -> nat, u: Tid)
    requires ts <= m.Keys && u in ts
    ensures SumOver(m, ts, f) == f(m[u]) + SumOver(m, ts - {u}, f)
    decreases |ts|
  {
    var t :| t in ts && SumOver(m, ts, f) == f(m[t]) + SumOver(m, ts - {t}, f);
    if t != u {
      SumSplit(m, ts - {t}, f, u);
      SumSplit(m, ts - {u}, f, t);
      assert ts - {t} - {u} == ts - {u} - {t};
    }
  }

  /** Maps that agree where it counts have the same sum. */
  lemma {:induction false} SumSame<P, Q>(m: map<Tid, P>, n: map<Tid, Q>, ts: set<Tid>, f: P -> nat, g: Q -> nat)
    requires ts <= m.Keys && ts <= n.Keys && forall t :: t in ts ==> f(m[t]) == g(n[t])
    ensures SumOver(m, ts, f) == SumOver(n, ts, g)
    decreases |ts|
  {
    if ts != {} {
      var t :| t in ts;
      SumSplit(m, ts, f, t);
      SumSplit(n, ts, g, t);
      SumSame(m, n, ts - {t}, f, g);
    }
  }

  lemma SumUpdate<P>(m: map<Tid, P>, t: Tid, v: P, f: P -> nat)
    requires t in m
    ensures Sum(m[t := v], f) == Sum(m, f) - f(m[t]) + f(v)
  {
    var n := m[t := v];
    assert n.Keys == m.Keys;
    SumSplit(m, m.Keys, f, t);
    SumSplit(n, n.Keys, f, t);
    SumSame(m, n, m.Keys - {t}, f, f);
  }

  lemma SumMapAll<P(!new)>(m: map<Tid, P>, g: P -> P, f: P -> nat)
    requires forall x :: f(g(x)) == f(x)
    ensures Sum(MapAll(m, g), f) == Sum(m, f)
  {
    assert MapAll(m, g).Keys == m.Keys;
    SumSame(MapAll(m, g), m, m.Keys, f, f);
  }
}
