/** Exact sums of tokens and money, and the saturating `u64` arithmetic laid over them. */
module Ledgers {
  /* The program adds tokens with `saturating_add` in several places and in several orders.
     A `Ledger` holds the exact (unbounded) sums; `Cap` is what saturation makes of it.  It is shown
     that capping may be postponed to the very end, and that exact sums do not depend on order or
     grouping. */


  const U64_MAX: nat := 0xFFFF_FFFF_FFFF_FFFF
  const U32_MAX: nat := 0xFFFF_FFFF

  type u64 = x: nat | x <= U64_MAX
  type u32 = x: nat | x <= U32_MAX

  function Min(a: nat, b: nat): nat {
    if a <= b then a else b
  }

  /** `u64::saturating_add` */
  function SatAdd(a: u64, b: u64): u64 {
    Min(a + b, U64_MAX)
  }

  /** `u64` addition in a release build, as `Iterator::sum` performs it. */
  function WrapAdd(a: u64, b: u64): u64 {
    if a + b <= U64_MAX then a + b else a + b - (U64_MAX + 1)
  }

  datatype Ledger = Ledger(input: nat, output: nat, cacheRead: nat, cacheWrite: nat, reasoning: nat, cost: real) {

    /** All tokens, whatever their class. */
    function Grand(): nat {
      input + output + cacheRead + cacheWrite + reasoning
    }
  }

  function Zero(): Ledger {
    Ledger(0, 0, 0, 0, 0, 0.0)
  }

  function Plus(a: Ledger, b: Ledger): Ledger {
    Ledger(a.input + b.input, a.output + b.output, a.cacheRead + b.cacheRead,
           a.cacheWrite + b.cacheWrite, a.reasoning + b.reasoning, a.cost + b.cost)
  }

  lemma {:induction false} PlusZero(a: Ledger)
    ensures Plus(Zero(), a) == a && Plus(a, Zero()) == a
  {}

  lemma {:induction false} PlusAssociative(a: Ledger, b: Ledger, c: Ledger)
    ensures Plus(Plus(a, b), c) == Plus(a, Plus(b, c))
  {}

  /** Moves `b` to the front. */
  lemma {:induction false} PlusRotate(a: Ledger, b: Ledger, c: Ledger)
    ensures Plus(a, Plus(b, c)) == Plus(b, Plus(a, c))
  {}

  /** `(a + b) + (c + d) == (a + c) + (b + d)` */
  lemma {:induction false} PlusInterchange(a: Ledger, b: Ledger, c: Ledger, d: Ledger)
    ensures Plus(Plus(a, b), Plus(c, d)) == Plus(Plus(a, c), Plus(b, d))
  {}

  function Cap(a: Ledger): Ledger {
    Ledger(Min(a.input, U64_MAX), Min(a.output, U64_MAX), Min(a.cacheRead, U64_MAX),
           Min(a.cacheWrite, U64_MAX), Min(a.reasoning, U64_MAX), a.cost)
  }

  predicate Below(a: Ledger, b: Ledger) {
    && a.input <= b.input && a.output <= b.output && a.cacheRead <= b.cacheRead
    && a.cacheWrite <= b.cacheWrite && a.reasoning <= b.reasoning
  }

  /** `a` is what remains of the exact sum `b` after some of its partial sums were capped. */
  predicate CappedFrom(a: Ledger, b: Ledger) {
    Below(a, b) && Cap(a) == Cap(b)
  }

  lemma {:induction false} CappedFromPlus(a: Ledger, a': Ledger, b: Ledger, b': Ledger)
    requires CappedFrom(a, a') && CappedFrom(b, b')
    ensures CappedFrom(Plus(a, b), Plus(a', b'))
  {}

  function Total<T>(xs: seq<T>, f: T -> Ledger): Ledger {
    if xs == [] then Zero() else Plus(f(xs[0]), Total(xs[1..], f))
  }

  lemma {:induction false} TotalAppend<T>(xs: seq<T>, ys: seq<T>, f: T -> Ledger)
    ensures Total(xs + ys, f) == Plus(Total(xs, f), Total(ys, f))
  {
    if xs == [] {
      assert xs + ys == ys;
      PlusZero(Total(ys, f));
    } else {
      assert (xs + ys)[1..] == xs[1..] + ys;
      TotalAppend(xs[1..], ys, f);
      PlusAssociative(f(xs[0]), Total(xs[1..], f), Total(ys, f));
    }
  }

  lemma {:induction false} TotalSnoc<T>(xs: seq<T>, x: T, f: T -> Ledger)
    ensures Total(xs + [x], f) == Plus(Total(xs, f), f(x))
  {
    TotalAppend(xs, [x], f);
    PlusZero(f(x));
  }

  lemma {:induction false} RemoveAt<T>(xs: seq<T>, i: nat)
    requires i < |xs|
    ensures multiset(xs[..i] + xs[i + 1..]) == multiset(xs) - multiset{xs[i]}
  {
    assert xs == xs[..i] + ([xs[i]] + xs[i + 1..]);
  }

  lemma {:induction false} TotalPullOut<T>(xs: seq<T>, i: nat, f: T -> Ledger)
    requires i < |xs|
    ensures Total(xs, f) == Plus(f(xs[i]), Total(xs[..i] + xs[i + 1..], f))
  {
    var tail := xs[i..];
    assert tail[1..] == xs[i + 1..];
    assert xs == xs[..i] + tail;
    TotalAppend(xs[..i], tail, f);
    TotalAppend(xs[..i], tail[1..], f);
    PlusRotate(Total(xs[..i], f), f(xs[i]), Total(tail[1..], f));
  }

  /** A sum does not depend on the order of its terms. */
  lemma {:induction false} TotalPermutation<T>(xs: seq<T>, ys: seq<T>, f: T -> Ledger)
    requires multiset(xs) == multiset(ys)
    ensures Total(xs, f) == Total(ys, f)
  {
    if xs == [] {
      assert |multiset(ys)| == 0;
    } else {
      assert xs[0] in multiset(ys);
      var i :| 0 <= i < |ys| && ys[i] == xs[0];
      RemoveAt(xs, 0);
      RemoveAt(ys, i);
      assert xs[..0] + xs[1..] == xs[1..];
      TotalPermutation(xs[1..], ys[..i] + ys[i + 1..], f);
      TotalPullOut(ys, i, f);
    }
  }

  lemma {:induction false} TotalSplit<T>(xs: seq<T>, f: T -> Ledger, g: T -> Ledger, h: T -> Ledger)
    requires forall x | x in xs :: f(x) == Plus(g(x), h(x))
    ensures Total(xs, f) == Plus(Total(xs, g), Total(xs, h))
  {
    if xs == [] {
      PlusZero(Zero());
    } else {
      TotalSplit(xs[1..], f, g, h);
      PlusInterchange(g(xs[0]), h(xs[0]), Total(xs[1..], g), Total(xs[1..], h));
    }
  }

  lemma {:induction false} TotalCongruence<T>(xs: seq<T>, f: T -> Ledger, g: T -> Ledger)
    requires forall x | x in xs :: f(x) == g(x)
    ensures Total(xs, f) == Total(xs, g)
  {
    if xs != [] {
      TotalCongruence(xs[1..], f, g);
    }
  }

  lemma {:induction false} TotalZero<T>(xs: seq<T>, f: T -> Ledger)
    requires forall x | x in xs :: f(x) == Zero()
    ensures Total(xs, f) == Zero()
  {
    if xs != [] {
      TotalZero(xs[1..], f);
      assert f(xs[0]) == Zero();
      PlusZero(f(xs[0]));
    }
  }

  /** Counts only the elements of class `k`. */
  function Only<T, K(==)>(f: T -> Ledger, classOf: T -> K, k: K): T -> Ledger {
    x => if classOf(x) == k then f(x) else Zero()
  }

  function Among<T, K(==)>(f: T -> Ledger, classOf: T -> K, ks: seq<K>): T -> Ledger {
    x => if classOf(x) in ks then f(x) else Zero()
  }

  function ClassTotal<T, K(==)>(xs: seq<T>, f: T -> Ledger, classOf: T -> K): K -> Ledger {
    k => Total(xs, Only(f, classOf, k))
  }

  predicate Distinct<K(==)>(ks: seq<K>) {
    forall i, j | 0 <= i < j < |ks| :: ks[i] != ks[j]
  }

  lemma {:induction false} AmongCons<T, K>(f: T -> Ledger, classOf: T -> K, ks: seq<K>, x: T)
    requires ks != [] && ks[0] !in ks[1..]
    ensures Among(f, classOf, ks)(x) == Plus(Only(f, classOf, ks[0])(x), Among(f, classOf, ks[1..])(x))
  {
    var k := classOf(x);
    var here := Only(f, classOf, ks[0])(x);
    var there := Among(f, classOf, ks[1..])(x);
    assert k in ks <==> k == ks[0] || k in ks[1..];
    PlusZero(here);
    PlusZero(there);
  }

  lemma {:induction false} TotalByClassAmong<T, K>(xs: seq<T>, f: T -> Ledger, classOf: T -> K, ks: seq<K>)
    requires Distinct(ks)
    ensures Total(ks, ClassTotal(xs, f, classOf)) == Total(xs, Among(f, classOf, ks))
  {
    if ks == [] {
      TotalZero(xs, Among(f, classOf, ks));
    } else {
      TotalByClassAmong(xs, f, classOf, ks[1..]);
      forall x | x in xs
        ensures Among(f, classOf, ks)(x) == Plus(Only(f, classOf, ks[0])(x), Among(f, classOf, ks[1..])(x))
      {
        AmongCons(f, classOf, ks, x);
      }
      TotalSplit(xs, Among(f, classOf, ks), Only(f, classOf, ks[0]), Among(f, classOf, ks[1..]));
    }
  }

  /** Summing class by class gives the same as summing everything. */
  lemma {:induction false} TotalByClass<T, K>(xs: seq<T>, f: T -> Ledger, classOf: T -> K, ks: seq<K>)
    requires Distinct(ks)
    requires forall x | x in xs :: classOf(x) in ks
    ensures Total(ks, ClassTotal(xs, f, classOf)) == Total(xs, f)
  {
    TotalByClassAmong(xs, f, classOf, ks);
    TotalCongruence(xs, Among(f, classOf, ks), f);
  }
}
