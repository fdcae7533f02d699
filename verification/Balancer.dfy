/**
 * The weighted pool (src/utils/balancer/index.js), over exact reals: the prefix-sum index it keeps,
 * and the share of seeds each candidate gets.
 */
module Balancer {
  import opened Bytes

  datatype Item<T> = Item(candidate: T, weight: Option<real>)

  datatype Entry<T> = Entry(candidate: T, weight: real)

  datatype Op<T> = Push(item: Item<T>) | AddMany(items: seq<Item<T>>) | Delete(candidate: T)

  /** weight || 1 */
  function Effective(w: Option<real>): (r: real)
    ensures r != 0.0
  {
    if w.None? || w.value == 0.0 then 1.0 else w.value
  }

  // ---------------------------------------------------------------- the plain view

  function Added<T>(es: seq<Entry<T>>, items: seq<Item<T>>): seq<Entry<T>> {
    if items == [] then es
    else Added(es, items[..|items| - 1]) + [Entry(items[|items| - 1].candidate, Effective(items[|items| - 1].weight))]
  }

  function Removed<T(==)>(es: seq<Entry<T>>, candidate: T): seq<Entry<T>> {
    if es == [] then []
    else if es[0].candidate == candidate then es[1..]
    else [es[0]] + Removed(es[1..], candidate)
  }

  function Apply<T(==)>(es: seq<Entry<T>>, op: Op<T>): seq<Entry<T>> {
    match op
    case Push(item) => Added(es, [item])
    case AddMany(items) => Added(es, items)
    case Delete(candidate) => Removed(es, candidate)
  }

  function ApplyAll<T(==)>(es: seq<Entry<T>>, ops: seq<Op<T>>): seq<Entry<T>> {
    if ops == [] then es else Apply(ApplyAll(es, ops[..|ops| - 1]), ops[|ops| - 1])
  }

  function Pushes<T>(items: seq<Item<T>>): (ops: seq<Op<T>>)
    ensures |ops| == |items|
  {
    seq(|items|, i requires 0 <= i < |items| => Push(items[i]))
  }

  /** Adding many at once is pushing them one by one. */
  lemma {:induction false} AddManyIsPushes<T>(es: seq<Entry<T>>, items: seq<Item<T>>)
    ensures Apply(es, AddMany(items)) == ApplyAll(es, Pushes(items))
    decreases |items|
  {
    if items != [] {
      var init, last := items[..|items| - 1], items[|items| - 1];
      AddManyIsPushes(es, init);
      assert Pushes(items)[..|items| - 1] == Pushes(init);
      assert [last][..0] == [];
      assert Added(Added(es, init), [last]) == Added(es, items);
    }
  }

  // ---------------------------------------------------------------- the index

  function MinOf(ws: seq<real>): (m: real)
    requires ws != []
    ensures m in ws && forall i :: 0 <= i < |ws| ==> m <= ws[i]
  {
    if |ws| == 1 then ws[0]
    else
      var m := MinOf(ws[1..]);
      assert forall i :: 1 <= i < |ws| ==> ws[i] == ws[1..][i - 1];
      if ws[0] <= m then ws[0] else m
  }

  function Prefix(ws: seq<real>, k: nat): real
    requires k <= |ws|
  {
    if k == 0 then 0.0 else Prefix(ws, k - 1) + ws[k - 1]
  }

  ghost predicate Nonzero(ws: seq<real>) {
    forall i :: 0 <= i < |ws| ==> ws[i] != 0.0
  }

  /** The weights in units of the least one. */
  function Scaled(ws: seq<real>): (r: seq<real>)
    requires ws != [] && MinOf(ws) != 0.0
    ensures |r| == |ws|
  {
    seq(|ws|, i requires 0 <= i < |ws| => ws[i] / MinOf(ws))
  }

  /** The index: entry i is the sum of the first i + 1 scaled weights. */
  function Index(ws: seq<real>): (m: seq<real>)
    requires ws != [] ==> MinOf(ws) != 0.0
    ensures |m| == |ws|
  {
    if ws == [] then [] else seq(|ws|, i requires 0 <= i < |ws| => Prefix(Scaled(ws), i + 1))
  }

  function Max(ws: seq<real>): real
    requires ws != [] ==> MinOf(ws) != 0.0
  {
    if ws == [] then 0.0 else Prefix(Scaled(ws), |ws|)
  }

  lemma AddFractions(a: real, b: real, m: real)
    requires m != 0.0
    ensures a / m + b / m == (a + b) / m
  {
  }

  /** Summing scaled weights is scaling the sum. */
  lemma {:induction false} PrefixScales(ws: seq<real>, k: nat)
    requires ws != [] && MinOf(ws) != 0.0 && k <= |ws|
    ensures Prefix(Scaled(ws), k) == Prefix(ws, k) / MinOf(ws)
    decreases k
  {
    if k > 0 {
      PrefixScales(ws, k - 1);
      AddFractions(Prefix(ws, k - 1), ws[k - 1], MinOf(ws));
    }
  }

  /** First index whose value exceeds the pointer. */
  function FirstAbove(index: seq<real>, pointer: real): (r: Option<nat>)
    ensures r.Some? ==> r.value < |index| && pointer < index[r.value]
                        && forall j :: 0 <= j < r.value ==> !(pointer < index[j])
    ensures r.None? ==> forall j :: 0 <= j < |index| ==> !(pointer < index[j])
  {
    if index == [] then None
    else if pointer < index[0] then Some(0)
    else
      match FirstAbove(index[1..], pointer)
      case None =>
        assert forall j :: 1 <= j < |index| ==> index[j] == index[1..][j - 1];
        None
      case Some(i) =>
        assert forall j :: 1 <= j < |index| ==> index[j] == index[1..][j - 1];
        Some(i + 1)
  }

  function Abs(x: real): real {
    if x < 0.0 then -x else x
  }

  /** JavaScript's %: what is left when the divisor was taken away, or added, as often as it fits. */
  function Remainder(x: real, m: real): real
    requires m != 0.0
    decreases (Abs(x) / Abs(m)).Floor
  {
    if Abs(x) < Abs(m) then x
    else
      OneLess(Abs(x), Abs(m));
      if x > 0.0 then Remainder(x - Abs(m), m) else Remainder(x + Abs(m), m)
  }

  lemma OneLess(x: real, m: real)
    requires x >= m > 0.0
    ensures (x - m) / m == x / m - 1.0 && 1.0 <= x / m
  {
    Quotient(m, m, 1.0);
    AddFractions(x - m, m, m);
    DivideMonotone(m, x, m);
  }

  function Zip<T>(cs: seq<T>, ws: seq<real>): (es: seq<Entry<T>>)
    requires |cs| == |ws|
    ensures |es| == |cs| && forall i :: 0 <= i < |es| ==> es[i] == Entry(cs[i], ws[i])
  {
    seq(|cs|, i requires 0 <= i < |cs| && |cs| == |ws| => Entry(cs[i], ws[i]))
  }

  lemma ZipAppend<T>(cs: seq<T>, ws: seq<real>, c: T, w: real)
    requires |cs| == |ws|
    ensures Zip(cs + [c], ws + [w]) == Zip(cs, ws) + [Entry(c, w)]
  {
  }

  lemma AddedOne<T>(es: seq<Entry<T>>, item: Item<T>)
    ensures Added(es, [item]) == es + [Entry(item.candidate, Effective(item.weight))]
  {
    assert [item][..0] == [];
  }

  /** Each item joins with the weight it names, or with 1. */
  lemma {:induction false} AddedInOrder<T>(es: seq<Entry<T>>, items: seq<Item<T>>)
    ensures var all := Added(es, items);
            && |all| == |es| + |items| && all[..|es|] == es
            && forall i :: 0 <= i < |items| ==>
                 all[|es| + i] == Entry(items[i].candidate,
                   if items[i].weight.None? || items[i].weight.value == 0.0 then 1.0 else items[i].weight.value)
    decreases |items|
  {
    if items != [] {
      AddedInOrder(es, items[..|items| - 1]);
    }
  }

  class Pool<T(==)> {
    var candidates: seq<T>
    var weights: seq<real>
    var scaled: seq<real>
    var weightMap: seq<real>
    var max: real

    ghost predicate Aligned()
      reads this
    {
      |candidates| == |weights| && Nonzero(weights)
    }

    /** The index agrees with the weights. */
    ghost predicate Valid()
      reads this
    {
      && Aligned()
      && (weights == [] ==> scaled == [])
      && (weights != [] ==> scaled == Scaled(weights))
      && weightMap == Index(weights)
      && max == Max(weights)
    }

    ghost function View(): seq<Entry<T>>
      reads this
      requires |candidates| == |weights|
    {
      Zip(candidates, weights)
    }

    constructor ()
      ensures Valid() && View() == []
    {
      candidates, weights, scaled, weightMap, max := [], [], [], [], 0.0;
    }

    method CalculateWeights()
      requires Aligned()
      modifies this`scaled, this`weightMap, this`max
      ensures Valid()
    {
      var pointer := 0.0;
      var sums: seq<real> := [];
      scaled := if weights == [] then [] else Scaled(weights);
      for i := 0 to |scaled|
        invariant |sums| == i
        invariant pointer == Prefix(scaled, i)
        invariant forall j :: 0 <= j < i ==> sums[j] == Prefix(scaled, j + 1)
      {
        pointer := pointer + scaled[i];
        sums := sums + [pointer];
      }
      SumsAreIndex(weights, scaled, sums);
      weightMap := sums;
      max := pointer;
    }

    method Push(candidate: T, weight: Option<real>)
      requires Valid()
      modifies this
      ensures Valid() && View() == Apply(old(View()), Op.Push(Item(candidate, weight)))
      ensures View() == old(View())
                        + [Entry(candidate, if weight.None? || weight.value == 0.0 then 1.0 else weight.value)]
    {
      ZipAppend(candidates, weights, candidate, Effective(weight));
      AddedOne(View(), Item(candidate, weight));
      candidates := candidates + [candidate];
      weights := weights + [Effective(weight)];
      CalculateWeights();
    }

    method AddMany(items: seq<Item<T>>)
      requires Valid()
      modifies this
      ensures Valid() && View() == Apply(old(View()), Op.AddMany(items))
      ensures |View()| == |old(View())| + |items| && View()[..|old(View())|] == old(View())
      ensures forall i :: 0 <= i < |items| ==>
                View()[|old(View())| + i] == Entry(items[i].candidate,
                  if items[i].weight.None? || items[i].weight.value == 0.0 then 1.0 else items[i].weight.value)
    {
      AddedInOrder(View(), items);
      for i := 0 to |items|
        invariant Aligned()
        invariant View() == Added(old(View()), items[..i])
      {
        assert items[..i + 1][..i] == items[..i];
        ZipAppend(candidates, weights, items[i].candidate, Effective(items[i].weight));
        candidates := candidates + [items[i].candidate];
        weights := weights + [Effective(items[i].weight)];
      }
      assert items[..|items|] == items;
      CalculateWeights();
    }

    method Delete(candidate: T)
      requires Valid()
      modifies this
      ensures Valid() && View() == Apply(old(View()), Op.Delete(candidate))
    {
      var index := 0;
      while index < |candidates| && candidates[index] != candidate
        invariant index <= |candidates|
        invariant forall j :: 0 <= j < index ==> candidates[j] != candidate
      {
        index := index + 1;
      }
      PairRemoved(candidates, weights, candidate, index);
      if index == |candidates| {
        return;
      }
      candidates := candidates[..index] + candidates[index + 1..];
      weights := weights[..index] + weights[index + 1..];
      CalculateWeights();
    }

    /** The seed if given, otherwise a random number in [0, 1). */
    method GetRandomCandidate(seed: Option<real>, random: real) returns (r: Option<T>)
      requires Valid()
      ensures seed.Some? && max == 0.0 ==> r == None
      ensures !(seed.Some? && max == 0.0) ==>
                var pointer := if seed.None? then random * max else Remainder(seed.value, max);
                r == match FirstAbove(weightMap, pointer) case None => None case Some(i) => Some(candidates[i])
    {
      if seed.Some? && max == 0.0 {
        return None;  // x % 0 is NaN, and no comparison with NaN holds
      }
      var netPointer := if seed.None? then random * max else Remainder(seed.value, max);
      var nets: seq<T> := [];
      ghost var first := FirstAbove(weightMap, netPointer);
      for key := 0 to |candidates|
        invariant first.None? || key <= first.value ==> nets == []
        invariant first.Some? && key > first.value ==> nets != [] && nets[0] == candidates[first.value]
      {
        if netPointer < weightMap[key] {
          nets := nets + [candidates[key]];
        }
      }
      r := if nets == [] then None else Some(nets[0]);
    }
  }

  lemma {:induction false} RemovedAt<T>(es: seq<Entry<T>>, candidate: T, index: nat)
    requires index <= |es|
    requires forall j :: 0 <= j < index ==> es[j].candidate != candidate
    requires index < |es| ==> es[index].candidate == candidate
    ensures Removed(es, candidate) == if index == |es| then es else es[..index] + es[index + 1..]
    decreases index
  {
    if index > 0 {
      RemovedAt(es[1..], candidate, index - 1);
      if index < |es| {
        assert es[1..][index - 1] == es[index];
        assert [es[0]] + (es[1..][..index - 1] + es[1..][index..]) == es[..index] + es[index + 1..];
      }
    }
  }

  lemma ZipRemove<T>(cs: seq<T>, ws: seq<real>, at: nat)
    requires at < |cs| == |ws|
    ensures Zip(cs[..at] + cs[at + 1..], ws[..at] + ws[at + 1..]) == Zip(cs, ws)[..at] + Zip(cs, ws)[at + 1..]
  {
  }

  /** Dropping the first match from both lists is dropping it from their pairs. */
  lemma PairRemoved<T>(cs: seq<T>, ws: seq<real>, candidate: T, at: nat)
    requires at <= |cs| == |ws| && Nonzero(ws)
    requires forall j :: 0 <= j < at ==> cs[j] != candidate
    requires at < |cs| ==> cs[at] == candidate
    ensures at == |cs| ==> Zip(cs, ws) == Removed(Zip(cs, ws), candidate)
    ensures at < |cs| ==>
              && Nonzero(ws[..at] + ws[at + 1..])
              && Zip(cs[..at] + cs[at + 1..], ws[..at] + ws[at + 1..]) == Removed(Zip(cs, ws), candidate)
  {
    RemovedAt(Zip(cs, ws), candidate, at);
    if at < |cs| {
      ZipRemove(cs, ws, at);
    }
  }

  lemma SumsAreIndex(ws: seq<real>, scaled: seq<real>, sums: seq<real>)
    requires Nonzero(ws) && scaled == (if ws == [] then [] else Scaled(ws)) && |sums| == |scaled|
    requires forall j :: 0 <= j < |sums| ==> sums[j] == Prefix(scaled, j + 1)
    ensures sums == Index(ws) && Prefix(scaled, |scaled|) == Max(ws)
  {
  }

  // ---------------------------------------------------------------- positive weights

  ghost predicate Positive(ws: seq<real>) {
    forall i :: 0 <= i < |ws| ==> ws[i] > 0.0
  }

  lemma ScaledPositive(ws: seq<real>)
    requires ws != [] && Positive(ws)
    ensures Positive(Scaled(ws))
  {
    forall i | 0 <= i < |ws|
      ensures Scaled(ws)[i] > 0.0
    {
      DivideMonotone(0.0, ws[i], MinOf(ws));
    }
  }

  lemma DivideMonotone(a: real, b: real, m: real)
    requires m > 0.0
    ensures a <= b <==> a / m <= b / m
    ensures a < b <==> a / m < b / m
  {
    var x, y := a / m, b / m;
    assert x * m == a && y * m == b;
    assert x <= y ==> x * m <= y * m;
    assert x < y ==> x * m < y * m;
  }

  lemma {:induction false} PrefixIncreases(ws: seq<real>, i: nat, j: nat)
    requires Positive(ws) && i <= j <= |ws|
    ensures Prefix(ws, i) <= Prefix(ws, j)
    ensures i < j ==> Prefix(ws, i) < Prefix(ws, j)
    decreases j
  {
    if i < j {
      PrefixIncreases(ws, i, j - 1);
    }
  }

  /** Where candidate i begins: the weights before it, in units of the least weight. */
  function Begins(ws: seq<real>, i: nat): real
    requires ws != [] && MinOf(ws) != 0.0 && i <= |ws|
  {
    Prefix(ws, i) / MinOf(ws)
  }

  /**
   * With positive weights every pointer in [0, max) selects exactly one candidate: i is selected
   * exactly on the interval from Begins(i) to Begins(i + 1), whose length is its weight over the least.
   */
  lemma {:induction false} PointerSelectsInterval(ws: seq<real>, pointer: real, i: nat)
    requires ws != [] && Positive(ws) && i < |ws|
    requires 0.0 <= pointer < Max(ws)
    ensures FirstAbove(Index(ws), pointer).Some?
    ensures FirstAbove(Index(ws), pointer) == Some(i) <==> Begins(ws, i) <= pointer < Begins(ws, i + 1)
    ensures Begins(ws, i + 1) - Begins(ws, i) == ws[i] / MinOf(ws)
  {
    var index, scaled := Index(ws), Scaled(ws);
    ScaledPositive(ws);
    BeginsStep(ws, i);
    SelectsBySums(scaled, index, pointer, i);
  }

  lemma BeginsStep(ws: seq<real>, i: nat)
    requires ws != [] && MinOf(ws) != 0.0 && i < |ws|
    ensures Begins(ws, i) == Prefix(Scaled(ws), i) && Begins(ws, i + 1) == Prefix(Scaled(ws), i + 1)
    ensures Begins(ws, i + 1) - Begins(ws, i) == ws[i] / MinOf(ws)
  {
    PrefixScales(ws, i);
    PrefixScales(ws, i + 1);
  }

  lemma SelectsBySums(scaled: seq<real>, index: seq<real>, pointer: real, i: nat)
    requires Positive(scaled) && |index| == |scaled| && i < |scaled|
    requires forall j :: 0 <= j < |index| ==> index[j] == Prefix(scaled, j + 1)
    requires 0.0 <= pointer < Prefix(scaled, |scaled|)
    ensures FirstAbove(index, pointer).Some?
    ensures FirstAbove(index, pointer) == Some(i) <==> Prefix(scaled, i) <= pointer < Prefix(scaled, i + 1)
  {
    assert index[|index| - 1] == Prefix(scaled, |scaled|);
    var k := FirstAbove(index, pointer).value;
    assert index[i] == Prefix(scaled, i + 1);
    if k < i {
      PrefixIncreases(scaled, k + 1, i);
    } else if k == i && i > 0 {
      assert index[i - 1] == Prefix(scaled, i);
    }
  }

  lemma Quotient(x: real, m: real, q: real)
    requires m != 0.0
    ensures x / m == q <==> x == q * m
  {
  }

  /** The seed and its remainder differ by a whole number of divisors. */
  lemma {:induction false} RemainderIsCongruent(x: real, m: real) returns (k: int)
    requires m > 0.0
    ensures x == Remainder(x, m) + k as real * m
    decreases (Abs(x) / Abs(m)).Floor
  {
    if Abs(x) < m {
      k := 0;
    } else {
      OneLess(Abs(x), m);
      var n := RemainderIsCongruent(if x > 0.0 then x - m else x + m, m);
      k := if x > 0.0 then n + 1 else n - 1;
      OneMore(n, m);
    }
  }

  lemma OneMore(k: int, m: real)
    ensures (k + 1) as real * m == k as real * m + m
    ensures (k - 1) as real * m == k as real * m - m
  {
    assert (k + 1) as real == k as real + 1.0;
    assert (k - 1) as real == k as real - 1.0;
  }

  /** A seed's remainder keeps the sign of the seed and stays below max; a seed already there stays. */
  lemma {:induction false} RemainderInRange(x: real, m: real)
    requires m > 0.0
    ensures x >= 0.0 ==> 0.0 <= Remainder(x, m) < m
    ensures x < 0.0 ==> -m < Remainder(x, m) <= 0.0
    ensures -m < x < m ==> Remainder(x, m) == x
    decreases (Abs(x) / Abs(m)).Floor
  {
    if Abs(x) >= m {
      OneLess(Abs(x), m);
      RemainderInRange(if x > 0.0 then x - m else x + m, m);
    }
  }

  /** Seeds wrap around: another max added to a non-negative seed changes nothing. */
  lemma RemainderWraps(x: real, m: real)
    requires x >= 0.0 && m > 0.0
    ensures Remainder(x + m, m) == Remainder(x, m)
  {
  }

  /** Negative seeds do not wrap: each of them selects the first candidate. */
  lemma NegativeSeedSelectsFirst(ws: seq<real>, seed: real)
    requires ws != [] && Positive(ws) && seed < 0.0
    ensures MinOf(ws) > 0.0 && Max(ws) > 0.0 && SeedSelects(ws, seed) == Some(0)
  {
    MaxPositive(ws);
    RemainderInRange(seed, Max(ws));
    FirstEntryPositive(ws);
  }

  lemma FirstEntryPositive(ws: seq<real>)
    requires ws != [] && Positive(ws)
    ensures MinOf(ws) > 0.0 && Index(ws)[0] > 0.0
  {
    MaxPositive(ws);
    ScaledPositive(ws);
    assert Index(ws)[0] == Prefix(Scaled(ws), 1) == Prefix(Scaled(ws), 0) + Scaled(ws)[0];
  }

  // ---------------------------------------------------------------- exact shares

  function Reals(ns: seq<nat>): (ws: seq<real>)
    ensures |ws| == |ns|
  {
    seq(|ns|, i requires 0 <= i < |ns| => ns[i] as real)
  }

  function Total(ns: seq<nat>, k: nat): nat
    requires k <= |ns|
  {
    if k == 0 then 0 else Total(ns, k - 1) + ns[k - 1]
  }

  lemma {:induction false} TotalIsPrefix(ns: seq<nat>, k: nat)
    requires k <= |ns|
    ensures Prefix(Reals(ns), k) == Total(ns, k) as real
    decreases k
  {
    if k > 0 {
      TotalIsPrefix(ns, k - 1);
    }
  }

  lemma {:induction false} TotalGrows(ns: seq<nat>, i: nat, j: nat)
    requires i <= j <= |ns|
    ensures Total(ns, i) <= Total(ns, j)
    decreases j
  {
    if i < j {
      TotalGrows(ns, i, j - 1);
    }
  }

  /** The index getRandomCandidate selects for a seed in a non-empty pool of positive weights. */
  function SeedSelects(ws: seq<real>, seed: real): Option<nat>
    requires ws != [] && MinOf(ws) != 0.0 && Max(ws) != 0.0
  {
    FirstAbove(Index(ws), Remainder(seed, Max(ws)))
  }

  lemma MaxPositive(ws: seq<real>)
    requires ws != [] && Positive(ws)
    ensures MinOf(ws) > 0.0 && Max(ws) > 0.0
  {
    ScaledPositive(ws);
    PrefixIncreases(Scaled(ws), 0, |ws|);
  }

  /** The seed k/min. */
  function Seed(ns: seq<nat>, k: nat): real
    requires ns != [] && MinOf(Reals(ns)) != 0.0
  {
    k as real / MinOf(Reals(ns))
  }

  lemma SeedAgainstSums(ns: seq<nat>, k: nat, i: nat)
    requires ns != [] && Positive(Reals(ns)) && i <= |ns|
    ensures Seed(ns, k) >= 0.0
    ensures k < Total(ns, i) <==> Seed(ns, k) < Begins(Reals(ns), i)
  {
    var ws := Reals(ns);
    MaxPositive(ws);
    TotalIsPrefix(ns, i);
    DivideMonotone(0.0, k as real, MinOf(ws));
    DivideMonotone(k as real, Prefix(ws, i), MinOf(ws));
  }

  /** The seed k/min selects candidate i. */
  predicate Selects(ns: seq<nat>, i: nat, k: nat)
    requires ns != [] && MinOf(Reals(ns)) != 0.0 && Max(Reals(ns)) != 0.0
  {
    SeedSelects(Reals(ns), Seed(ns, k)) == Some(i)
  }

  lemma IntegerSeedSelects(ns: seq<nat>, k: nat, i: nat)
    requires Positive(Reals(ns)) && i < |ns| && k < Total(ns, |ns|) && Max(Reals(ns)) != 0.0
    ensures Selects(ns, i, k) <==> Total(ns, i) <= k < Total(ns, i + 1)
  {
    var ws := Reals(ns);
    MaxPositive(ws);
    PrefixScales(ws, |ws|);
    SeedAgainstSums(ns, k, |ns|);
    SeedAgainstSums(ns, k, i);
    SeedAgainstSums(ns, k, i + 1);
    RemainderInRange(Seed(ns, k), Max(ws));
    PointerSelectsInterval(ws, Seed(ns, k), i);
  }

  /** Those k for which the seed k/min, below max, selects candidate i. */
  ghost function Selectors(ns: seq<nat>, i: nat): set<nat>
    requires ns != [] && MinOf(Reals(ns)) != 0.0 && Max(Reals(ns)) != 0.0
  {
    set k: nat | k in Interval(0, Total(ns, |ns|)) && Selects(ns, i, k)
  }

  /** The numbers from a up to b. */
  function Interval(a: nat, b: nat): (r: set<nat>)
    ensures forall k: nat :: k in r <==> a <= k < b
    ensures |r| == if a <= b then b - a else 0
    decreases b
  {
    if a >= b then {} else Interval(a, b - 1) + {b - 1}
  }

  lemma InSelectors(ns: seq<nat>, i: nat, k: nat)
    requires Positive(Reals(ns)) && i < |ns| && MinOf(Reals(ns)) != 0.0 && Max(Reals(ns)) != 0.0
    ensures k in Selectors(ns, i) <==> Total(ns, i) <= k < Total(ns, i + 1)
  {
    TotalGrows(ns, i + 1, |ns|);
    if k < Total(ns, |ns|) {
      IntegerSeedSelects(ns, k, i);
      assert k in Interval(0, Total(ns, |ns|));
    }
  }

  /**
   * Integer weights are exact shares: of the seeds k/min below max, exactly ns[i] select candidate i,
   * and they are consecutive.
   */
  lemma {:induction false} ExactShares(ns: seq<nat>, i: nat)
    requires Positive(Reals(ns)) && i < |ns|
    ensures MinOf(Reals(ns)) != 0.0 && Max(Reals(ns)) != 0.0
    ensures Selectors(ns, i) == Interval(Total(ns, i), Total(ns, i + 1)) && |Selectors(ns, i)| == ns[i]
  {
    MaxPositive(Reals(ns));
    forall k: nat
      ensures k in Selectors(ns, i) <==> k in Interval(Total(ns, i), Total(ns, i + 1))
    {
      InSelectors(ns, i, k);
    }
  }
}
