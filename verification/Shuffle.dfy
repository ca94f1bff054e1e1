/**
 The shuffle of the MCQ import (apps/api/prisma/seed-mcq-import.ts): a seeded
 32-bit generator, and a Fisher-Yates pass that also finds where the right answer went.
 */
module Shuffle {
  import Binary64

  // ---------- mulberry32 ----------

  const TWO32: nat := 0x1_0000_0000
  const INCREMENT: nat := 0x6d2b79f5

  /** The output mix: 32-bit wrap-around multiplication, unsigned shifts. */
  function Mix(a: bv32): bv32 {
    var t := (a ^ (a >> 15)) * (1 | a);
    var t' := (t + (t ^ (t >> 7)) * (61 | t)) ^ t;
    t' ^ (t' >> 14)
  }

  function Output(a: nat): (k: nat)
    requires a < TWO32
    ensures k < TWO32
  {
    Mix(a as bv32) as nat
  }

  /** The state after `n` calls. */
  function StateAfter(seed: nat, n: nat): (a: nat)
    ensures a < TWO32
  {
    (seed + n * INCREMENT) % TWO32
  }

  class Mulberry32 {
    var a: nat

    constructor (seed: nat)
      requires seed < TWO32
      ensures a == seed
    {
      a := seed;
    }

    /** One call: the numerator k of the returned number k / 2^32. */
    method Next() returns (k: nat)
      requires a < TWO32
      modifies this
      ensures a == StateAfter(old(a), 1) && k == Output(a)
    {
      a := (a + INCREMENT) % TWO32;
      k := Output(a);
    }
  }

  lemma ModAdd(x: nat, y: nat)
    ensures (x % TWO32 + y) % TWO32 == (x + y) % TWO32
  {
    var q := x / TWO32;
    assert x == q * TWO32 + x % TWO32;
    ModMultiple(x % TWO32 + y, q);
  }

  lemma {:induction false} ModMultiple(x: nat, q: nat)
    ensures (x + q * TWO32) % TWO32 == x % TWO32
  {
    if q > 0 { ModMultiple(x, q - 1); }
  }

  /** One step from the state after `n` calls is the state after `n + 1`. */
  lemma StateStep(seed: nat, n: nat)
    ensures StateAfter(StateAfter(seed, n), 1) == StateAfter(seed, n + 1)
  {
    ModAdd(seed + n * INCREMENT, INCREMENT);
  }

  lemma StateAfterTwice(a: nat, m: nat, n: nat)
    requires a < TWO32
    ensures StateAfter(a, 0) == a && StateAfter(StateAfter(a, m), n) == StateAfter(a, m + n)
  {
    ModAdd(a + m * INCREMENT, n * INCREMENT);
  }

  // The increment is odd, so it has an inverse modulo 2^32.
  const INVERSE: nat := 3696798301
  const INVERSE_TURNS: nat := 1576479847

  lemma InverseWorks()
    ensures INCREMENT * INVERSE == 1 + INVERSE_TURNS * TWO32
  {}

  lemma MultipleIffZero(x: int)
    ensures x % TWO32 == 0 <==> exists q: int :: x == q * TWO32
  {
    if x % TWO32 == 0 { assert x == (x / TWO32) * TWO32; }
  }

  lemma IncrementCancels(d: nat)
    requires (d * INCREMENT) % TWO32 == 0
    ensures d % TWO32 == 0
  {
    MultipleIffZero(d * INCREMENT);
    var q: int :| d * INCREMENT == q * TWO32;
    InverseWorks();
    calc {
      d;
      d * (INCREMENT * INVERSE) - d * INVERSE_TURNS * TWO32;
      (d * INCREMENT) * INVERSE - d * INVERSE_TURNS * TWO32;
      (q * INVERSE - d * INVERSE_TURNS) * TWO32;
    }
    MultipleIffZero(d);
  }

  /** The generator visits 2^32 different states before it repeats one. */
  lemma FullPeriod(seed: nat, m: nat, n: nat)
    requires m <= n
    ensures StateAfter(seed, m) == StateAfter(seed, n) <==> (n - m) % TWO32 == 0
  {
    var x, y, d := seed + m * INCREMENT, seed + n * INCREMENT, (n - m) * INCREMENT;
    assert y == x + d;
    if StateAfter(seed, m) == StateAfter(seed, n) {
      assert d == (y / TWO32 - x / TWO32) * TWO32;
      MultipleIffZero(d);
      IncrementCancels(n - m);
    }
    if (n - m) % TWO32 == 0 {
      var q := (n - m) / TWO32;
      assert d == (q * INCREMENT) * TWO32;
      ModMultiple(x, q * INCREMENT);
    }
  }

  /** ... and so it visits every 32-bit state: the inverse of the increment tells when. */
  lemma EveryStateIsReached(seed: nat, state: nat) returns (n: nat)
    requires seed < TWO32 && state < TWO32
    ensures n < TWO32 && StateAfter(seed, n) == state
  {
    InverseWorks();
    var d := state + TWO32 - seed;
    var q := d * INVERSE / TWO32;
    n := d * INVERSE % TWO32;
    var turns := 1 + d * INVERSE_TURNS - q * INCREMENT;
    calc {
      seed + n * INCREMENT;
      seed + (d * INVERSE - q * TWO32) * INCREMENT;
      seed + d * (INVERSE * INCREMENT) - q * INCREMENT * TWO32;
      state + turns * TWO32;
    }
    ModMultiple(state, turns);
  }

  // ---------- from a random number to an index ----------

  /** floor(k / 2^32 * m) */
  function Pick(k: nat, m: nat): (j: nat)
    requires k < TWO32
    ensures m > 0 ==> j < m
  {
    PickInRange(k, m);
    k * m / TWO32
  }

  lemma PickInRange(k: nat, m: nat)
    requires k < TWO32
    ensures m > 0 ==> k * m / TWO32 < m
  {
    if m > 0 { assert k * m < TWO32 * m; }
  }

  /** In doubles, dividing by 2^32 and multiplying by up to 2^21 are exact, so Math.floor gives this very index. */
  lemma PickInDoubles(k: nat, m: nat, unit: real, product: real)
    requires k < TWO32 && m <= 0x20_0000
    requires Binary64.Rounds(k as real / TWO32 as real, unit) && Binary64.Rounds(unit * m as real, product)
    ensures product.Floor == Pick(k, m)
  {
    hide Binary64.Double, Binary64.Rounds, Binary64.Two, Pick;
    Exact(k, unit);
    ProductBound(k, m);
    ProductOverT(k, m, unit);
    Exact(k * m, product);
    FloorOfQuotient(k * m);
    PickIs(k, m);
  }

  lemma ProductBound(k: nat, m: nat)
    requires k < TWO32 && m <= 0x20_0000
    ensures 0 <= k * m <= Binary64.LIMIT
  {
    Monotone(k, TWO32, m);
  }

  lemma ProductOverT(k: nat, m: nat, unit: real)
    requires unit == k as real / TWO32 as real
    ensures unit * m as real == (k * m) as real / TWO32 as real
  {
    assert (k * m) as real == k as real * m as real;
  }

  lemma Exact(n: nat, r: real)
    requires n <= Binary64.LIMIT && Binary64.Rounds(n as real / TWO32 as real, r)
    ensures r == n as real / TWO32 as real
  {
    hide Binary64.Two;
    Binary64.Powers();
    assert Binary64.Is(n as real / TWO32 as real, n, 32);
    Binary64.ExactStays(n as real / TWO32 as real, r);
  }

  lemma FloorOfQuotient(n: nat)
    ensures (n as real / TWO32 as real).Floor == n / TWO32
  {
    var q := n / TWO32;
    assert q * TWO32 <= n < q * TWO32 + TWO32;
  }

  lemma PickIs(k: nat, m: nat)
    requires k < TWO32
    ensures Pick(k, m) == k * m / TWO32
  {}

  function Draws(m: nat, j: nat): set<nat> {
    set k: nat | k < TWO32 && Pick(k, m) == j
  }

  lemma {:induction false} RangeSize(s: set<nat>, lo: nat, hi: nat)
    requires lo <= hi && forall k: nat :: k in s <==> lo <= k < hi
    ensures |s| == hi - lo
  {
    if lo < hi {
      RangeSize(s - {hi - 1}, lo, hi - 1);
    } else {
      assert s == {};
    }
  }

  function CeilDiv(x: nat, m: nat): (c: nat)
    requires m > 0
    ensures c * m >= x && (c == 0 || (c - 1) * m < x)
  {
    (x + m - 1) / m
  }

  lemma PickMeans(k: nat, m: nat, j: nat)
    requires k < TWO32 && m > 0
    ensures Pick(k, m) == j <==> CeilDiv(j * TWO32, m) <= k < CeilDiv((j + 1) * TWO32, m)
  {
    assert Pick(k, m) == j <==> j * TWO32 <= k * m < (j + 1) * TWO32;
    CeilIsLeast(j * TWO32, m, k);
    CeilIsLeast((j + 1) * TWO32, m, k);
  }

  lemma CeilIsLeast(x: nat, m: nat, k: nat)
    requires m > 0
    ensures CeilDiv(x, m) <= k <==> x <= k * m
  {
    var c := CeilDiv(x, m);
    if c <= k { assert c * m <= k * m; }
    else { assert k <= c - 1; assert k * m <= (c - 1) * m; }
  }

  /** Every index is drawn for floor(2^32 / m) or ceil(2^32 / m) of the 2^32 outputs. */
  lemma DrawsAreEven(m: nat, j: nat)
    requires 0 < m <= TWO32 && j < m
    ensures TWO32 / m <= |Draws(m, j)| <= CeilDiv(TWO32, m)
  {
    var lo, hi := CeilDiv(j * TWO32, m), CeilDiv((j + 1) * TWO32, m);
    CeilIsLeast((j + 1) * TWO32, m, TWO32);
    assert (j + 1) * TWO32 <= TWO32 * m;
    CeilIsLeast(j * TWO32, m, hi);
    assert j * TWO32 <= (j + 1) * TWO32 <= hi * m;
    forall k: nat ensures k in Draws(m, j) <==> lo <= k < hi {
      if k < TWO32 { PickMeans(k, m, j); }
    }
    RangeSize(Draws(m, j), lo, hi);
    WidthBounds(lo, hi, j * TWO32, m);
  }

  lemma WidthBounds(lo: nat, hi: nat, x: nat, m: nat)
    requires m > 0 && lo == CeilDiv(x, m) && hi == CeilDiv(x + TWO32, m) && lo <= hi
    ensures TWO32 / m <= hi - lo <= CeilDiv(TWO32, m)
  {
    CeilSlack(x, m);
    CeilSlack(x + TWO32, m);
    assert (hi - lo) * m == hi * m - lo * m;
    NoMore(TWO32 / m, hi - lo, m, TWO32);
    NoMore(hi - lo, CeilDiv(TWO32, m), m, TWO32 + m - 1);
  }

  lemma CeilSlack(x: nat, m: nat)
    requires m > 0
    ensures CeilDiv(x, m) * m < x + m
  {
    var c := CeilDiv(x, m);
    if c > 0 { assert (c - 1) * m == c * m - m; }
  }

  lemma NoMore(a: nat, b: nat, m: nat, y: nat)
    requires m > 0 && a * m <= y < b * m + m
    ensures a <= b
  {
    if a >= b + 1 { Monotone(b + 1, a, m); }
  }

  lemma Monotone(a: nat, b: nat, m: nat)
    requires a <= b
    ensures a * m <= b * m
  {}

  // ---------- Fisher-Yates ----------

  predicate Choices(js: seq<nat>) {
    forall i | 0 <= i < |js| :: js[i] <= i
  }

  predicate Distinct<T(==)>(s: seq<T>) {
    forall i, j | 0 <= i < j < |s| :: s[i] != s[j]
  }

  function Swap<T>(s: seq<T>, i: nat, j: nat): (t: seq<T>)
    requires i < |s| && j < |s|
    ensures multiset(t) == multiset(s)
  {
    s[i := s[j]][j := s[i]]
  }

  /** What is left once item `j` has been swapped into the last place. */
  function Rest<T>(s: seq<T>, j: nat): (r: seq<T>)
    requires j < |s|
    ensures |r| == |s| - 1
    ensures multiset(r) + multiset{s[j]} == multiset(s)
  {
    var i := |s| - 1;
    var t := Swap(s, i, j);
    assert t == t[..i] + [s[j]];
    t[..i]
  }

  /** The last place gets the item at `js[last]`; the displaced item takes its place among the rest. */
  function Shuffled<T>(order: seq<T>, js: seq<nat>): (p: seq<T>)
    requires |js| == |order| && Choices(js)
    ensures |p| == |order|
    decreases |order|
  {
    if order == [] then []
    else
      var i := |order| - 1;
      Shuffled(Rest(order, js[i]), js[..i]) + [order[js[i]]]
  }

  lemma {:induction false} ShuffledKeepsItems<T>(order: seq<T>, js: seq<nat>)
    requires |js| == |order| && Choices(js)
    ensures multiset(Shuffled(order, js)) == multiset(order)
    decreases |order|
  {
    hide Rest;
    if order != [] {
      var i := |order| - 1;
      ShuffledKeepsItems(Rest(order, js[i]), js[..i]);
    }
  }

  // Undoing a shuffle: the choices that lead from `order` to `p`.

  function IndexOf<T(==)>(s: seq<T>, x: T): (i: nat)
    requires x in s
    ensures i < |s| && s[i] == x && x !in s[..i]
  {
    if s[0] == x then 0 else IndexOf(s[1..], x) + 1
  }

  lemma RestIsDistinct<T>(s: seq<T>, j: nat)
    requires j < |s| && Distinct(s)
    ensures Distinct(Rest(s, j)) && s[j] !in Rest(s, j)
  {}

  lemma RestHasOthers<T>(s: seq<T>, j: nat, x: T)
    requires j < |s|
    ensures x in s && x != s[j] ==> x in Rest(s, j)
  {
    hide Rest;
    assert x in s ==> x in multiset(s);
  }

  lemma RestIsPermutation<T>(s: seq<T>, p: seq<T>)
    requires multiset(s) == multiset(p)
    ensures |s| == |p|
    ensures p != [] ==> p[|p| - 1] in s && multiset(Rest(s, IndexOf(s, p[|p| - 1]))) == multiset(p[..|p| - 1])
  {
    hide Rest, IndexOf;
    assert |multiset(s)| == |s| && |multiset(p)| == |p|;
    if p != [] {
      var i := |p| - 1;
      assert p == p[..i] + [p[i]];
      assert p[i] in multiset(s);
      var rest := Rest(s, IndexOf(s, p[i]));
      assert multiset(rest) + multiset{p[i]} == multiset(p[..i]) + multiset{p[i]};
      assert multiset(rest) == (multiset(rest) + multiset{p[i]}) - multiset{p[i]};
    }
  }

  function Unshuffle<T(==)>(order: seq<T>, p: seq<T>): (js: seq<nat>)
    requires multiset(order) == multiset(p)
    ensures |js| == |order| == |p| && Choices(js)
    decreases |order|
  {
    RestIsPermutation(order, p);
    if order == [] then []
    else
      var i := |order| - 1;
      var j := IndexOf(order, p[i]);
      Unshuffle(Rest(order, j), p[..i]) + [j]
  }

  lemma UnshuffleStep<T>(order: seq<T>, p: seq<T>)
    requires multiset(order) == multiset(p) && p != []
    ensures |order| == |p| && p[|p| - 1] in order
    ensures var i, js := |p| - 1, Unshuffle(order, p);
      var j := IndexOf(order, p[i]);
      multiset(Rest(order, j)) == multiset(p[..i]) && js[i] == j && js[..i] == Unshuffle(Rest(order, j), p[..i])
  {
    hide Rest, IndexOf, Choices;
    RestIsPermutation(order, p);
  }

  /** Every permutation is reached ... */
  lemma {:induction false} ShuffleReaches<T>(order: seq<T>, p: seq<T>)
    requires multiset(order) == multiset(p)
    ensures Shuffled(order, Unshuffle(order, p)) == p
    decreases |p|
  {
    hide Rest, IndexOf, Choices, Unshuffle;
    if p != [] {
      UnshuffleStep(order, p);
      ShuffleReaches(Rest(order, IndexOf(order, p[|p| - 1])), p[..|p| - 1]);
      assert p == p[..|p| - 1] + [p[|p| - 1]];
    }
  }

  lemma ShuffledStep<T>(order: seq<T>, js: seq<nat>)
    requires |js| == |order| && Choices(js) && order != []
    ensures var i, p := |order| - 1, Shuffled(order, js);
      p[i] == order[js[i]] && p[..i] == Shuffled(Rest(order, js[i]), js[..i])
  {
    hide Rest;
  }

  lemma IndexOfDistinct<T>(s: seq<T>, j: nat)
    requires j < |s| && Distinct(s)
    ensures IndexOf(s, s[j]) == j
  {
    hide IndexOf;
  }

  /** ... and by one choice vector only. */
  lemma {:induction false} ShuffleIsInjective<T>(order: seq<T>, js: seq<nat>)
    requires |js| == |order| && Choices(js) && Distinct(order)
    ensures multiset(order) == multiset(Shuffled(order, js))
    ensures Unshuffle(order, Shuffled(order, js)) == js
    decreases |order|
  {
    hide Rest, IndexOf, Shuffled, Unshuffle, Distinct;
    ShuffledKeepsItems(order, js);
    if order != [] {
      var i, p := |order| - 1, Shuffled(order, js);
      ShuffledStep(order, js);
      IndexOfDistinct(order, js[i]);
      UnshuffleStep(order, p);
      RestIsDistinct(order, js[i]);
      ShuffleIsInjective(Rest(order, js[i]), js[..i]);
      assert js == js[..i] + [js[i]];
    }
  }

  // ---------- shuffleOptions ----------

  function Identity(n: nat): seq<nat> {
    seq(n, i => i)
  }

  function Draw(a: nat, n: nat, i: nat): (j: nat)
    requires i < n
    ensures j <= i
  {
    if i == 0 then 0 else Pick(Output(StateAfter(a, n - i)), i + 1)
  }

  /** What the generator draws, from state `a`, for `n` items: first for place n-1, last for place 1. */
  function Drawn(a: nat, n: nat): (js: seq<nat>)
    ensures |js| == n && Choices(js)
  {
    seq(n, i requires 0 <= i < n => Draw(a, n, i))
  }

  /** Where the right answer, first among the source options, ends up. */
  function AnswerAt(n: nat, js: seq<nat>): (k: nat)
    requires 0 < n == |js| && Choices(js)
    ensures k < n
  {
    ShuffledKeepsItems(Identity(n), js);
    assert Identity(n)[0] in multiset(Identity(n));
    IndexOf(Shuffled(Identity(n), js), 0)
  }

  predicate Within(order: seq<nat>, n: nat) {
    forall i | 0 <= i < |order| :: order[i] < n
  }

  function Chosen<T>(options: seq<T>, order: seq<nat>): (chosen: seq<T>)
    requires Within(order, |options|)
    ensures |chosen| == |order|
  {
    seq(|order|, i requires 0 <= i < |order| => options[order[i]])
  }

  lemma ChosenRest<T>(options: seq<T>, order: seq<nat>, j: nat)
    requires j < |order| && Within(order, |options|)
    ensures Within(Rest(order, j), |options|)
    ensures Chosen(options, Rest(order, j)) == Rest(Chosen(options, order), j)
      && Chosen(options, order)[j] == options[order[j]]
  {
    hide Rest;
    var rest := Rest(order, j);
    forall k | 0 <= k < |rest| ensures rest[k] < |options| {
      RestAt(order, j, k);
    }
    var chosen := Rest(Chosen(options, order), j);
    forall k | 0 <= k < |rest| ensures Chosen(options, rest)[k] == chosen[k] {
      RestAt(order, j, k);
      RestAt(Chosen(options, order), j, k);
    }
  }

  lemma RestAt<T>(s: seq<T>, j: nat, k: nat)
    requires j < |s| && k < |s| - 1
    ensures Rest(s, j)[k] == if k == j then s[|s| - 1] else s[k]
  {}

  lemma ChosenAppend<T>(options: seq<T>, order: seq<nat>, x: nat)
    requires Within(order, |options|) && x < |options|
    ensures Within(order + [x], |options|) && Chosen(options, order + [x]) == Chosen(options, order) + [options[x]]
  {}

  lemma {:induction false} ShuffledIndices<T>(options: seq<T>, order: seq<nat>, js: seq<nat>)
    requires |js| == |order| && Choices(js) && Within(order, |options|)
    ensures Within(Shuffled(order, js), |options|)
    ensures Chosen(options, Shuffled(order, js)) == Shuffled(Chosen(options, order), js)
    decreases |order|
  {
    hide Rest, Chosen;
    if order != [] {
      var i := |order| - 1;
      var rest := Rest(order, js[i]);
      ChosenRest(options, order, js[i]);
      ShuffledIndices(options, rest, js[..i]);
      ShuffledStep(order, js);
      ShuffledStep(Chosen(options, order), js);
      ChosenAppend(options, Shuffled(rest, js[..i]), order[js[i]]);
      assert Shuffled(order, js) == Shuffled(rest, js[..i]) + [order[js[i]]];
      var p := Shuffled(Chosen(options, order), js);
      assert p == p[..i] + [p[i]];
    }
  }

  lemma ChosenAll<T>(options: seq<T>)
    ensures Within(Identity(|options|), |options|) && Chosen(options, Identity(|options|)) == options
  {}

  /**
   Shuffling indices and looking the options up is shuffling the options; the answer is found even among equal
   options.
   */
  lemma AnswerIsKept<T>(options: seq<T>, js: seq<nat>)
    requires 0 < |options| == |js| && Choices(js)
    ensures Shuffled(options, js)[AnswerAt(|options|, js)] == options[0]
    ensures multiset(Shuffled(options, js)) == multiset(options)
  {
    hide Shuffled, Choices;
    var n := |options|;
    ChosenAll(options);
    ShuffledIndices(options, Identity(n), js);
    ShuffledKeepsItems(options, js);
  }

  /** What the loop still comes to: places 0..i yet to be shuffled, the places behind them settled. */
  ghost function Outlook<T>(order: seq<T>, js: seq<nat>, i: nat): seq<T>
    requires i < |order| == |js| && Choices(js)
  {
    Shuffled(order[..i + 1], js[..i + 1]) + order[i + 1..]
  }

  lemma RestOfPrefix<T>(order: seq<T>, i: nat, j: nat)
    requires j <= i < |order|
    ensures Rest(order[..i + 1], j) == Swap(order, i, j)[..i] && Swap(order, i, j)[i..] == [order[j]] + order[i + 1..]
  {}

  lemma OutlookStep<T>(order: seq<T>, js: seq<nat>, i: nat)
    requires 0 < i < |order| == |js| && Choices(js)
    ensures Outlook(Swap(order, i, js[i]), js, i - 1) == Outlook(order, js, i)
  {
    hide Rest, Shuffled, Swap;
    RestOfPrefix(order, i, js[i]);
    ShuffledStep(order[..i + 1], js[..i + 1]);
    var p := Shuffled(order[..i + 1], js[..i + 1]);
    assert js[..i + 1][..i] == js[..i];
    assert p == p[..i] + [order[js[i]]];
  }

  lemma OneItemStays<T>(order: seq<T>, js: seq<nat>)
    requires |js| == |order| == 1 && Choices(js)
    ensures Shuffled(order, js) == order
  {
    hide Rest;
    ShuffledStep(order, js);
  }

  lemma OutlookEnds<T>(order: seq<T>, js: seq<nat>)
    requires order != [] && |js| == |order| && Choices(js)
    ensures Outlook(order, js, |order| - 1) == Shuffled(order, js) && Outlook(order, js, 0) == order
  {
    hide Rest, Shuffled, Swap;
    assert order[..|order|] == order && js[..|js|] == js;
    OneItemStays(order[..1], js[..1]);
  }

  lemma SwapIs<T>(s: seq<T>, t: seq<T>, i: nat, j: nat)
    requires i < |s| == |t| && j < |s| && t[i] == s[j] && t[j] == s[i]
    requires forall k | 0 <= k < |s| && k != i && k != j :: t[k] == s[k]
    ensures t == Swap(s, i, j)
  {}

  lemma DrawnAt(a: nat, n: nat, i: nat)
    requires 0 < i < n
    ensures Drawn(a, n)[i] == Pick(Output(StateAfter(a, n - i)), i + 1)
  {}

  /** The loop of shuffleOptions. */
  method ShuffleInPlace(order: array<nat>, rand: Mulberry32)
    requires order.Length > 0 && rand.a < TWO32
    modifies order, rand
    ensures rand.a == StateAfter(old(rand.a), order.Length - 1)
    ensures order[..] == Shuffled(old(order[..]), Drawn(old(rand.a), order.Length))
  {
    hide Shuffled, Output, Pick, Outlook, Choices, StateAfter, Swap, Drawn;
    ghost var js := Drawn(rand.a, order.Length);
    OutlookEnds(order[..], js);
    StateAfterTwice(rand.a, 0, 0);
    var i := order.Length - 1;
    while i > 0
      invariant 0 <= i < order.Length
      invariant rand.a == StateAfter(old(rand.a), order.Length - 1 - i)
      invariant Outlook(order[..], js, i) == Shuffled(old(order[..]), js)
    {
      StateStep(old(rand.a), order.Length - 1 - i);
      DrawnAt(old(rand.a), order.Length, i);
      OutlookStep(order[..], js, i);
      ghost var was := order[..];
      var k := rand.Next();
      var j := Pick(k, i + 1);
      order[i], order[j] := order[j], order[i];
      SwapIs(was, order[..], i, j);
      i := i - 1;
    }
    OutlookEnds(order[..], js);
  }

  method ShuffleOptions<T>(options: seq<T>, rand: Mulberry32) returns (shuffled: seq<T>, newCorrectIndex: nat)
    requires options != [] && rand.a < TWO32
    modifies rand
    ensures rand.a == StateAfter(old(rand.a), |options| - 1)
    ensures var js := Drawn(old(rand.a), |options|);
      shuffled == Shuffled(options, js) && newCorrectIndex == AnswerAt(|options|, js)
  {
    hide Shuffled, Drawn, StateAfter, Chosen;
    var n := |options|;
    ghost var js := Drawn(rand.a, n);
    var order := new nat[n](i => i);
    assert order[..] == Identity(n);
    ShuffleInPlace(order, rand);
    ChosenAll(options);
    ShuffledIndices(options, Identity(n), js);
    shuffled := Chosen(options, order[..]);
    newCorrectIndex := FindZero(order[..], js);
  }

  /** order.indexOf(0) */
  method FindZero(order: seq<nat>, ghost js: seq<nat>) returns (k: nat)
    requires 0 < |order| == |js| && Choices(js) && order == Shuffled(Identity(|order|), js)
    ensures k == AnswerAt(|order|, js)
  {
    hide Shuffled, Identity;
    ghost var answer := AnswerAt(|order|, js);
    k := 0;
    while order[k] != 0
      invariant k <= answer
      decreases |order| - k
    {
      k := k + 1;
    }
  }

  // ---------- counting choice vectors ----------

  function Factorial(n: nat): nat {
    if n == 0 then 1 else n * Factorial(n - 1)
  }

  function Extended(vs: set<seq<nat>>, j: nat): set<seq<nat>> {
    set v | v in vs :: v + [j]
  }

  /** The vectors of length `n + 1` whose last choice is below `m`. */
  function ExtendedBelow(vs: set<seq<nat>>, m: nat): set<seq<nat>> {
    if m == 0 then {} else ExtendedBelow(vs, m - 1) + Extended(vs, m - 1)
  }

  function Vectors(n: nat): set<seq<nat>> {
    if n == 0 then {[]} else ExtendedBelow(Vectors(n - 1), n)
  }

  lemma {:induction false} InExtendedBelow(vs: set<seq<nat>>, m: nat, w: seq<nat>)
    ensures w in ExtendedBelow(vs, m) <==> w != [] && w[|w| - 1] < m && w[..|w| - 1] in vs
  {
    if m > 0 { InExtendedBelow(vs, m - 1, w); }
    if w != [] { assert w == w[..|w| - 1] + [w[|w| - 1]]; }
  }

  lemma {:induction false} VectorsAreChoices(n: nat, w: seq<nat>)
    ensures w in Vectors(n) <==> |w| == n && Choices(w)
  {
    if n > 0 {
      InExtendedBelow(Vectors(n - 1), n, w);
      if w != [] { VectorsAreChoices(n - 1, w[..|w| - 1]); }
    }
  }

  lemma {:induction false} ExtendedSize(vs: set<seq<nat>>, j: nat)
    ensures |Extended(vs, j)| == |vs|
  {
    if v :| v in vs {
      ExtendedSize(vs - {v}, j);
      forall w | w in vs && w + [j] == v + [j] ensures w == v {
        assert w == (w + [j])[..|w|];
      }
      assert Extended(vs, j) == Extended(vs - {v}, j) + {v + [j]};
    }
  }

  /** The vectors that bring `x` to place `k`. */
  function Landing<T(==)>(order: seq<T>, x: T, k: nat): set<seq<nat>>
    requires k < |order|
  {
    set v | v in Vectors(|order|) && |v| == |order| && Choices(v) && Shuffled(order, v)[k] == x
  }

  /** Those of them whose first draw is below `m`. */
  function LandingBelow<T(==)>(order: seq<T>, x: T, k: nat, m: nat): set<seq<nat>>
    requires k < |order|
  {
    set v | v in Landing(order, x, k) && |v| == |order| && v[|order| - 1] < m
  }

  lemma AllBelow<T>(order: seq<T>, x: T, k: nat)
    requires k < |order|
    ensures LandingBelow(order, x, k, |order|) == Landing(order, x, k)
  {}

  /** Fixing the first draw to `j` leaves a shuffle of one item fewer. */
  function LandingAt<T(==)>(order: seq<T>, x: T, k: nat, j: nat): set<seq<nat>>
    requires k < |order| && j < |order|
  {
    var i := |order| - 1;
    if k < i then Extended(Landing(Rest(order, j), x, k), j)
    else if order[j] == x then Extended(Vectors(i), j)
    else {}
  }

  lemma InLandingAt<T>(order: seq<T>, x: T, k: nat, j: nat, w: seq<nat>)
    requires k < |order| && j < |order|
    ensures w in LandingAt(order, x, k, j) <==> w in Landing(order, x, k) && |w| == |order| && w[|order| - 1] == j
  {
    hide Rest;
    var i := |order| - 1;
    VectorsAreChoices(|order|, w);
    if |w| == |order| && w[i] == j {
      var v := w[..i];
      VectorsAreChoices(i, v);
      assert w == v + [j];
    }
    forall v | v in Vectors(i) && w == v + [j] ensures |w| == |order| && v == w[..i] {
      VectorsAreChoices(i, v);
    }
  }

  lemma LandingStep<T>(order: seq<T>, x: T, k: nat, j: nat)
    requires k < |order| && j < |order|
    ensures |LandingBelow(order, x, k, j + 1)| == |LandingBelow(order, x, k, j)| + |LandingAt(order, x, k, j)|
  {
    hide Landing, LandingAt;
    forall w ensures w in LandingAt(order, x, k, j)
      <==> w in Landing(order, x, k) && |w| == |order| && w[|order| - 1] == j {
      InLandingAt(order, x, k, j, w);
    }
    assert LandingBelow(order, x, k, j + 1) == LandingBelow(order, x, k, j) + LandingAt(order, x, k, j);
    assert LandingBelow(order, x, k, j) !! LandingAt(order, x, k, j);
  }

  lemma NeverLands<T>(order: seq<T>, x: T, k: nat)
    requires k < |order| && x !in order
    ensures Landing(order, x, k) == {}
  {
    forall v: seq<nat> | |v| == |order| && Choices(v) ensures Shuffled(order, v)[k] != x {
      ShuffledKeepsItems(order, v);
      assert Shuffled(order, v)[k] in multiset(Shuffled(order, v));
    }
  }

  lemma {:induction false} LandingAtSize<T>(order: seq<T>, x: T, k: nat, j: nat)
    requires k < |order| && x in order && Distinct(order) && j < |order|
    ensures var i := |order| - 1;
      |LandingAt(order, x, k, j)| == if (k == i) != (order[j] == x) then 0 else Factorial(if k == i then i else i - 1)
    decreases |order|, 0
  {
    hide Rest, Landing, Vectors;
    var i := |order| - 1;
    if k < i {
      ExtendedSize(Landing(Rest(order, j), x, k), j);
      RestIsDistinct(order, j);
      RestHasOthers(order, j, x);
      if order[j] == x { NeverLands(Rest(order, j), x, k); } else { EveryPlaceIsEquallyLikely(Rest(order, j), x, k); }
    } else {
      ExtendedSize(Vectors(i), j);
      VectorCount(i);
    }
  }

  /** (n-1)! of the n! vectors bring a given item to a given place. */
  lemma {:induction false} EveryPlaceIsEquallyLikely<T>(order: seq<T>, x: T, k: nat)
    requires k < |order| && x in order && Distinct(order)
    ensures |Landing(order, x, k)| == Factorial(|order| - 1)
    decreases |order|, |order| + 1
  {
    CountBelow(order, x, k, |order|);
    AllBelow(order, x, k);
  }

  lemma {:induction false} VectorCount(n: nat)
    ensures |Vectors(n)| == Factorial(n)
  {
    if n > 0 {
      VectorCount(n - 1);
      ExtendedBelowSize(Vectors(n - 1), n);
    }
  }

  lemma ExtensionsAreApart(vs: set<seq<nat>>, j: nat)
    ensures ExtendedBelow(vs, j) !! Extended(vs, j)
  {
    forall w | w in Extended(vs, j) ensures w !in ExtendedBelow(vs, j) {
      InExtendedBelow(vs, j, w);
    }
  }

  lemma OneMore(m: int, n: int)
    ensures (m + 1) * n == m * n + n
  {}

  lemma {:induction false} ExtendedBelowSize(vs: set<seq<nat>>, m: nat)
    ensures |ExtendedBelow(vs, m)| == m * |vs|
  {
    hide Extended;
    if m > 0 {
      ExtendedBelowSize(vs, m - 1);
      ExtendedSize(vs, m - 1);
      ExtensionsAreApart(vs, m - 1);
      var below, more := ExtendedBelow(vs, m - 1), Extended(vs, m - 1);
      assert |below + more| == |below| + |more|;
      OneMore(m - 1, |vs|);
    }
  }

  /**
   Of the first `m` first draws, each leaves (n-2)! vectors, except the one that puts `x` itself in the last
   place.
   */
  lemma {:induction false} CountBelow<T>(order: seq<T>, x: T, k: nat, m: nat)
    requires k < |order| && x in order && Distinct(order) && m <= |order|
    ensures var i, fixed := |order| - 1, if IndexOf(order, x) < m then 1 else 0;
      |LandingBelow(order, x, k, m)| ==
        if k == i then fixed * Factorial(i) else (m - fixed) * Factorial(i - 1)
    decreases |order|, m
  {
    hide LandingBelow, LandingAt, IndexOf, Factorial;
    var at := IndexOf(order, x);
    if m > 0 {
      var j, i := m - 1, |order| - 1;
      CountBelow(order, x, k, j);
      LandingStep(order, x, k, j);
      LandingAtSize(order, x, k, j);
      assert order[j] == x <==> at == j;
      OneMore(j - (if at < j then 1 else 0), Factorial(if k == i then i else i - 1));
    } else {
      NothingBelow(order, x, k);
    }
  }

  lemma NothingBelow<T>(order: seq<T>, x: T, k: nat)
    requires k < |order|
    ensures LandingBelow(order, x, k, 0) == {}
  {}
}
