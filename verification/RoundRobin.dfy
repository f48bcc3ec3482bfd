/** Shared-subscription counters: which member of a group a publish goes to. */
module RoundRobin {
  import opened Basics
  import opened Topics
  import opened Trie
  import opened Matching

  const USIZE := 0x1_0000_0000_0000_0000

  type usize = x: int | 0 <= x < USIZE

  /** `shared_group_counters`; a group without an entry starts at 0. */
  type Counters = map<Text, usize>

  function CounterOf(counters: Counters, group: Text): usize {
    if group in counters then counters[group] else 0
  }

  /** One wrapping `fetch_add`. */
  function NextCount(c: usize): usize {
    (c + 1) % USIZE
  }

  function BumpGroup(counters: Counters, group: Text): Counters {
    counters[group := NextCount(CounterOf(counters, group))]
  }

  /** The member a group selects next. */
  function Selected(counters: Counters, group: Text, members: seq<SubInfo>): (s: SubInfo)
    requires members != []
    ensures s in members
  {
    members[CounterOf(counters, group) % |members|]
  }

  /** The counter of one group after a publish. */
  function AfterPublish(counters: Counters, n: Node, topic: Text, group: Text): usize {
    if Members(n, Split(topic), group) == [] then CounterOf(counters, group) else NextCount(CounterOf(counters, group))
  }

  // ----------------------------------------------------------------- arithmetic

  lemma DivNext(a: nat, k: nat)
    requires k > 0
    ensures (a + 1) / k == a / k + if (a + 1) % k == 0 then 1 else 0
  {
    var q, r := a / k, a % k;
    assert a == q * k + r;
    if r + 1 < k {
      DivUnique(a + 1, k, q, r + 1);
    } else {
      assert (q + 1) * k == q * k + k;
      DivUnique(a + 1, k, q + 1, 0);
    }
  }

  lemma DivUnique(a: nat, k: nat, q: nat, r: nat)
    requires r < k && a == q * k + r
    ensures a / k == q && a % k == r
  {
    var q', r' := a / k, a % k;
    assert a == q' * k + r';
    if q' < q {
      assert (q - q') * k == q * k - q' * k;
      assert (q - q') * k >= k by { MulAtLeast(q - q', k); }
    } else if q' > q {
      assert (q' - q) * k == q' * k - q * k;
      assert (q' - q) * k >= k by { MulAtLeast(q' - q, k); }
    }
  }

  lemma MulAtLeast(m: nat, k: nat)
    requires m >= 1
    ensures m * k >= k
  {
    assert m * k == (m - 1) * k + k;
  }

  lemma SumDivParts(k: nat, q: nat, r: nat, p: nat, s: nat)
    requires r < k && s < k
    ensures (q * k + r + (p * k + s)) / k == q + p + if r + s < k then 0 else 1
  {
    assert (q + p) * k == q * k + p * k;
    if r + s < k {
      DivUnique(q * k + r + (p * k + s), k, q + p, r + s);
    } else {
      assert (q + p + 1) * k == (q + p) * k + k;
      DivUnique(q * k + r + (p * k + s), k, q + p + 1, r + s - k);
    }
  }

  lemma DivMod(a: nat, k: nat)
    requires k > 0
    ensures a == a / k * k + a % k && a % k < k
  {
  }

  lemma SumDiv(a: nat, n: nat, k: nat)
    requires k > 0
    ensures n / k <= (a + n) / k - a / k <= (n + k - 1) / k
  {
    DivMod(a, k);
    DivMod(n, k);
    SumDivParts(k, a / k, a % k, n / k, n % k);
    CeilDiv(n, k);
  }

  lemma CeilDiv(n: nat, k: nat)
    requires k > 0
    ensures (n + k - 1) / k == n / k + if n % k == 0 then 0 else 1
  {
    var p, s := n / k, n % k;
    assert n == p * k + s;
    if s == 0 {
      DivUnique(n + k - 1, k, p, k - 1);
    } else {
      assert (p + 1) * k == p * k + k;
      DivUnique(n + k - 1, k, p + 1, s - 1);
    }
  }

  /** How many numbers below m leave remainder i: the quotient of m, shifted. */
  function Below(m: nat, k: nat, i: nat): nat
    requires i < k
  {
    (m + k - 1 - i) / k
  }

  lemma ShiftedRemainder(m: nat, k: nat, i: nat)
    requires i < k
    ensures (m + k - i) % k == 0 <==> m % k == i
  {
    DivMod(m, k);
    var q, r := m / k, m % k;
    if r >= i {
      assert (q + 1) * k == q * k + k;
      DivUnique(m + k - i, k, q + 1, r - i);
    } else {
      DivUnique(m + k - i, k, q, r + k - i);
    }
  }

  lemma BelowNext(m: nat, k: nat, i: nat)
    requires i < k
    ensures Below(m + 1, k, i) == Below(m, k, i) + if m % k == i then 1 else 0
  {
    DivNext(m + k - 1 - i, k);
    ShiftedRemainder(m, k, i);
    assert m + 1 + k - 1 - i == m + k - 1 - i + 1 == m + k - i;
  }

  /** How many numbers below m leave remainder i. */
  function Count(m: nat, k: nat, i: nat): nat
    requires i < k
  {
    if m == 0 then 0 else Count(m - 1, k, i) + if (m - 1) % k == i then 1 else 0
  }

  lemma {:induction false} CountIsBelow(m: nat, k: nat, i: nat)
    requires i < k
    ensures Count(m, k, i) == Below(m, k, i)
  {
    if m == 0 {
      DivUnique(k - 1 - i, k, 0, k - 1 - i);
    } else {
      CountIsBelow(m - 1, k, i);
      BelowNext(m - 1, k, i);
    }
  }

  /** A counter that started at c, after some wrapping steps. */
  function Advance(c: usize, steps: nat): usize {
    (c + steps) % USIZE
  }

  lemma AdvanceNext(c: usize, steps: nat)
    ensures Advance(c, 0) == c
    ensures Advance(c, steps + 1) == NextCount(Advance(c, steps))
    ensures c + steps < USIZE ==> Advance(c, steps) == c + steps
  {
  }

  /** Of some steps of a counter that starts at c, how many find position i of k. */
  function Hits(c: usize, k: nat, steps: nat, i: nat): nat
    requires k > 0
  {
    if steps == 0 then 0
    else Hits(c, k, steps - 1, i) + if Advance(c, steps - 1) % k == i then 1 else 0
  }

  lemma {:induction false} HitsAreCounted(c: usize, k: nat, steps: nat, i: nat)
    requires i < k && c + steps <= USIZE
    ensures Hits(c, k, steps, i) == Count(c + steps, k, i) - Count(c, k, i)
  {
    if steps > 0 {
      HitsAreCounted(c, k, steps - 1, i);
      AdvanceNext(c, steps - 1);
    }
  }

  /** Until the counter wraps, n steps find each of k positions floor(n/k) or ceil(n/k) times. */
  lemma HitsAreFair(c: usize, k: nat, steps: nat, i: nat)
    requires i < k && c + steps <= USIZE
    ensures steps / k <= Hits(c, k, steps, i) <= (steps + k - 1) / k
  {
    HitsAreCounted(c, k, steps, i);
    CountIsBelow(c, k, i);
    CountIsBelow(c + steps, k, i);
    SumDiv(c + k - 1 - i, steps, k);
  }

  // ------------------------------------------------- a counter that sometimes steps

  /** The counter before, between and after publishes, which steps at some of them. */
  ghost predicate Steps(cs: seq<usize>, turns: seq<bool>) {
    && |cs| == |turns| + 1
    && forall p :: 0 <= p < |turns| ==> cs[p + 1] == if turns[p] then NextCount(cs[p]) else cs[p]
  }

  /** How many of the first p publishes were turns. */
  function TurnsBefore(turns: seq<bool>, p: nat): nat
    requires p <= |turns|
  {
    if p == 0 then 0 else TurnsBefore(turns, p - 1) + if turns[p - 1] then 1 else 0
  }

  /** How many of the first p publishes were turns that found position i of k. */
  function TimesBefore(cs: seq<usize>, turns: seq<bool>, k: nat, i: nat, p: nat): nat
    requires |cs| == |turns| + 1 && p <= |turns| && k > 0
  {
    if p == 0 then 0
    else TimesBefore(cs, turns, k, i, p - 1) + if turns[p - 1] && cs[p - 1] % k == i then 1 else 0
  }

  lemma {:induction false} StepsAdvance(cs: seq<usize>, turns: seq<bool>, p: nat)
    requires Steps(cs, turns) && p <= |turns|
    ensures cs[p] == Advance(cs[0], TurnsBefore(turns, p))
  {
    if p == 0 {
      AdvanceNext(cs[0], 0);
    } else {
      StepsAdvance(cs, turns, p - 1);
      AdvanceNext(cs[0], TurnsBefore(turns, p - 1));
    }
  }

  lemma {:induction false} TimesAreHits(cs: seq<usize>, turns: seq<bool>, k: nat, i: nat, p: nat)
    requires Steps(cs, turns) && p <= |turns| && k > 0
    ensures TimesBefore(cs, turns, k, i, p) == Hits(cs[0], k, TurnsBefore(turns, p), i)
  {
    if p > 0 {
      TimesAreHits(cs, turns, k, i, p - 1);
      StepsAdvance(cs, turns, p - 1);
    }
  }

  /** Something that grows by one exactly at the turns that find position i has grown that often. */
  lemma {:induction false} GrowthIsTimes(sizes: seq<nat>, cs: seq<usize>, turns: seq<bool>, k: nat, i: nat, p: nat)
    requires |cs| == |turns| + 1 == |sizes| && p <= |turns| && k > 0
    requires forall q :: 0 <= q < |turns| ==> sizes[q + 1] == sizes[q] + if turns[q] && cs[q] % k == i then 1 else 0
    ensures sizes[p] == sizes[0] + TimesBefore(cs, turns, k, i, p)
  {
    if p > 0 { GrowthIsTimes(sizes, cs, turns, k, i, p - 1); }
  }
}
