/** The order in which the corpus generator builds its kinds of artifact: whole rounds over
    the kinds, until the remaining quotas add up to nothing. */
module CorpusPlan {
  datatype Kind = Single | Multi | Supersede | Contradiction | Noise

  type Quotas = map<Kind, int>

  // The order names keys of the map, each once, and all of them.
  ghost predicate Keyed(order: seq<Kind>, quota: Quotas) {
    forall i | 0 <= i < |order| :: order[i] in quota
  }

  ghost predicate Distinct(order: seq<Kind>) {
    forall i, j | 0 <= i < j < |order| :: order[i] != order[j]
  }

  ghost predicate Occurs(order: seq<Kind>, k: Kind) {
    exists i :: 0 <= i < |order| && order[i] == k
  }

  ghost predicate Lists(order: seq<Kind>, quota: Quotas) {
    Keyed(order, quota) && Distinct(order) && forall k {:trigger Occurs(order, k)} | k in quota :: Occurs(order, k)
  }

  // ------------------------------------------------------------------
  // Adding up a map
  // ------------------------------------------------------------------

  ghost function Sum(m: Quotas, keys: set<Kind>): int
    requires keys <= m.Keys
  {
    if keys == {} then 0
    else
      var k :| k in keys;
      m[k] + Sum(m, keys - {k})
  }

  lemma {:induction false} SumAnyFirst(m: Quotas, keys: set<Kind>, k: Kind)
    requires keys <= m.Keys && k in keys
    ensures Sum(m, keys) == m[k] + Sum(m, keys - {k})
  {
    var first :| first in keys && Sum(m, keys) == m[first] + Sum(m, keys - {first});
    if first != k {
      SumAnyFirst(m, keys - {first}, k);
      SumAnyFirst(m, keys - {k}, first);
      assert keys - {first} - {k} == keys - {k} - {first};
    }
  }

  lemma {:induction false} SumGrows(a: Quotas, b: Quotas, keys: set<Kind>)
    requires keys <= a.Keys && keys <= b.Keys && forall k <- keys :: a[k] <= b[k]
    ensures Sum(a, keys) <= Sum(b, keys)
  {
    if keys != {} {
      var k :| k in keys;
      SumAnyFirst(a, keys, k);
      SumAnyFirst(b, keys, k);
      SumGrows(a, b, keys - {k});
    }
  }

  lemma {:induction false} SumSign(m: Quotas, keys: set<Kind>)
    requires keys <= m.Keys
    ensures (forall k <- keys :: m[k] <= 0) ==> Sum(m, keys) <= 0
    ensures (forall k <- keys :: m[k] >= 0) ==> Sum(m, keys) >= 0
  {
    if keys != {} {
      var k :| k in keys;
      SumAnyFirst(m, keys, k);
      SumSign(m, keys - {k});
    }
  }

  // `sumRemaining`: the keys in an order of the runtime's choosing.
  method SumRemaining(m: Quotas) returns (total: int)
    ensures total == Sum(m, m.Keys)
  {
    total := 0;
    var keys := m.Keys;
    while keys != {}
      invariant keys <= m.Keys && total + Sum(m, keys) == Sum(m, m.Keys)
      decreases |keys|
    {
      var k :| k in keys;
      SumAnyFirst(m, keys, k);
      total := total + m[k];
      keys := keys - {k};
    }
  }

  // ------------------------------------------------------------------
  // Rounds
  // ------------------------------------------------------------------

  function Max(a: int, b: int): int {
    if a >= b then a else b
  }

  function Min(a: int, b: int): int {
    if a <= b then a else b
  }

  // What is left of a quota q after n rounds; a negative quota never changes.
  function Left(q: int, n: nat): int {
    if q > n then q - n else Min(q, 0)
  }

  function LeftOf(quota: Quotas, n: nat): Quotas {
    map k | k in quota :: Left(quota[k], n)
  }

  // Round r takes, in the fixed order, one of each kind whose quota exceeds r.
  function Taken(order: seq<Kind>, quota: Quotas, r: nat, n: nat): seq<Kind>
    requires n <= |order| && Keyed(order, quota)
  {
    if n == 0 then []
    else Taken(order, quota, r, n - 1) + (if quota[order[n - 1]] > r then [order[n - 1]] else [])
  }

  function Rounds(order: seq<Kind>, quota: Quotas, n: nat): seq<Kind>
    requires Keyed(order, quota)
  {
    if n == 0 then [] else Rounds(order, quota, n - 1) + Taken(order, quota, n - 1, |order|)
  }

  // How often a kind occurs among the first n, and in all.
  function CountTo(plan: seq<Kind>, k: Kind, n: nat): nat
    requires n <= |plan|
  {
    if n == 0 then 0 else CountTo(plan, k, n - 1) + (if plan[n - 1] == k then 1 else 0)
  }

  function Count(plan: seq<Kind>, k: Kind): nat {
    CountTo(plan, k, |plan|)
  }

  lemma {:induction false} CountPrefix(a: seq<Kind>, b: seq<Kind>, k: Kind, n: nat)
    requires n <= |a|
    ensures CountTo(a + b, k, n) == CountTo(a, k, n)
    decreases n
  {
    if n > 0 { CountPrefix(a, b, k, n - 1); }
  }

  lemma {:induction false} CountRest(a: seq<Kind>, b: seq<Kind>, k: Kind, n: nat)
    requires n <= |b|
    ensures CountTo(a + b, k, |a| + n) == Count(a, k) + CountTo(b, k, n)
    decreases n
  {
    if n > 0 { CountRest(a, b, k, n - 1); } else { CountPrefix(a, b, k, |a|); }
  }

  lemma CountAppend(a: seq<Kind>, b: seq<Kind>, k: Kind)
    ensures Count(a + b, k) == Count(a, k) + Count(b, k)
  {
    CountRest(a, b, k, |b|);
  }

  lemma CountOne(x: Kind, k: Kind)
    ensures Count([x], k) == if x == k then 1 else 0
  {
    assert CountTo([x], k, 0) == 0;
  }

  lemma {:induction false} TakenCount(order: seq<Kind>, quota: Quotas, r: nat, n: nat, i: nat)
    requires n <= |order| && i < |order| && Keyed(order, quota) && Distinct(order)
    ensures Count(Taken(order, quota, r, n), order[i]) == if i < n && quota[order[i]] > r then 1 else 0
    decreases n
  {
    if n > 0 {
      var before, last := Taken(order, quota, r, n - 1), order[n - 1];
      TakenCount(order, quota, r, n - 1, i);
      if quota[last] > r {
        CountAppend(before, [last], order[i]);
        CountOne(last, order[i]);
      } else {
        assert before + [] == before;
      }
    }
  }

  lemma OneMore(before: seq<Kind>, taken: seq<Kind>, k: Kind, q: int, n: nat)
    requires n > 0 && Count(before, k) == Max(0, Min(q, n - 1)) && Count(taken, k) == if q > n - 1 then 1 else 0
    ensures Count(before + taken, k) == Max(0, Min(q, n))
  {
    CountAppend(before, taken, k);
  }

  // After n rounds a kind has been taken n times, or its whole quota if that is less.
  lemma {:induction false} RoundsCount(order: seq<Kind>, quota: Quotas, n: nat, i: nat)
    requires i < |order| && Keyed(order, quota) && Distinct(order)
    ensures Count(Rounds(order, quota, n), order[i]) == Max(0, Min(quota[order[i]], n))
    decreases n
  {
    if n > 0 {
      var before, taken := Rounds(order, quota, n - 1), Taken(order, quota, n - 1, |order|);
      RoundsCount(order, quota, n - 1, i);
      TakenCount(order, quota, n - 1, |order|, i);
      OneMore(before, taken, order[i], quota[order[i]], n);
    }
  }

  // x comes before y in the fixed order.
  ghost predicate Before(order: seq<Kind>, x: Kind, y: Kind) {
    exists i, j | 0 <= i < j < |order| :: order[i] == x && order[j] == y
  }

  lemma {:induction false} TakenFrom(order: seq<Kind>, quota: Quotas, r: nat, n: nat, p: nat) returns (i: nat)
    requires n <= |order| && Keyed(order, quota) && p < |Taken(order, quota, r, n)|
    ensures i < n && order[i] == Taken(order, quota, r, n)[p] && quota[order[i]] > r
    decreases n
  {
    if p < |Taken(order, quota, r, n - 1)| {
      i := TakenFrom(order, quota, r, n - 1, p);
    } else {
      i := n - 1;
    }
  }

  lemma {:induction false} TakenInOrder(order: seq<Kind>, quota: Quotas, r: nat, n: nat, p: nat, q: nat) returns (i: nat, j: nat)
    requires n <= |order| && Keyed(order, quota) && p < q < |Taken(order, quota, r, n)|
    ensures i < j < n && order[i] == Taken(order, quota, r, n)[p] && order[j] == Taken(order, quota, r, n)[q]
    decreases n
  {
    if q < |Taken(order, quota, r, n - 1)| {
      i, j := TakenInOrder(order, quota, r, n - 1, p, q);
    } else {
      i := TakenFrom(order, quota, r, n - 1, p);
      j := n - 1;
    }
  }

  lemma {:induction false} PlannedFrom(order: seq<Kind>, quota: Quotas, n: nat, p: nat) returns (i: nat)
    requires Keyed(order, quota) && p < |Rounds(order, quota, n)|
    ensures i < |order| && order[i] == Rounds(order, quota, n)[p]
    decreases n
  {
    var before := Rounds(order, quota, n - 1);
    if p < |before| {
      i := PlannedFrom(order, quota, n - 1, p);
    } else {
      i := TakenFrom(order, quota, n - 1, |order|, p - |before|);
    }
  }

  lemma {:induction false} CountWithin(plan: seq<Kind>, k: Kind, p: nat, n: nat)
    requires p < n <= |plan| && plan[p] == k
    ensures CountTo(plan, k, p) + 1 <= CountTo(plan, k, n)
    decreases n
  {
    if p + 1 < n { CountWithin(plan, k, p, n - 1); }
  }

  // How often the kind planned at p was planned before.
  function Turn(plan: seq<Kind>, p: nat): nat
    requires p < |plan|
  {
    CountTo(plan, plan[p], p)
  }

  // Kinds take turns: nobody has its next turn before everyone who still wants one has had
  // this one, and within a turn the fixed order holds.
  ghost predicate InTurn(order: seq<Kind>, plan: seq<Kind>, p: nat, q: nat)
    requires p < |plan| && q < |plan|
  {
    Turn(plan, p) < Turn(plan, q) || (Turn(plan, p) == Turn(plan, q) && Before(order, plan[p], plan[q]))
  }

  lemma TurnBefore(before: seq<Kind>, taken: seq<Kind>, n: nat, p: nat)
    requires p < |before| && Count(before, before[p]) <= n
    ensures Turn(before + taken, p) == Turn(before, p) < n && (before + taken)[p] == before[p]
  {
    CountPrefix(before, taken, before[p], p);
    CountWithin(before, before[p], p, |before|);
  }

  lemma TurnNow(before: seq<Kind>, taken: seq<Kind>, n: nat, p: nat)
    requires p < |taken| && Count(before, taken[p]) == n && Count(taken, taken[p]) == 1
    ensures Turn(before + taken, |before| + p) == n && (before + taken)[|before| + p] == taken[p]
  {
    CountWithin(taken, taken[p], p, |taken|);
    CountRest(before, taken, taken[p], p);
  }

  lemma CountsBefore(order: seq<Kind>, quota: Quotas, n: nat, p: nat)
    requires Lists(order, quota) && p < |Rounds(order, quota, n)|
    ensures Count(Rounds(order, quota, n), Rounds(order, quota, n)[p]) <= n
  {
    var i := PlannedFrom(order, quota, n, p);
    RoundsCount(order, quota, n, i);
  }

  lemma CountsNow(order: seq<Kind>, quota: Quotas, n: nat, p: nat)
    requires Lists(order, quota) && p < |Taken(order, quota, n, |order|)|
    ensures var before, taken := Rounds(order, quota, n), Taken(order, quota, n, |order|);
      Count(before, taken[p]) == n && Count(taken, taken[p]) == 1
  {
    var i := TakenFrom(order, quota, n, |order|, p);
    RoundsCount(order, quota, n, i);
    TakenCount(order, quota, n, |order|, i);
  }

  ghost predicate TakeTurns(order: seq<Kind>, plan: seq<Kind>) {
    forall p, q | 0 <= p < q < |plan| :: InTurn(order, plan, p, q)
  }

  ghost predicate Ordered(order: seq<Kind>, kinds: seq<Kind>) {
    forall p, q | 0 <= p < q < |kinds| :: Before(order, kinds[p], kinds[q])
  }

  // The plan is filled by rounds in which the kinds take turns.
  lemma {:induction false} RoundsTakeTurns(order: seq<Kind>, quota: Quotas, n: nat)
    requires Lists(order, quota)
    ensures TakeTurns(order, Rounds(order, quota, n))
    decreases n
  {
    if n > 0 {
      RoundsTakeTurns(order, quota, n - 1);
      var before, taken := Rounds(order, quota, n - 1), Taken(order, quota, n - 1, |order|);
      forall p | 0 <= p < |before| ensures Count(before, before[p]) <= n - 1 {
        CountsBefore(order, quota, n - 1, p);
      }
      forall p | 0 <= p < |taken| ensures Count(before, taken[p]) == n - 1 && Count(taken, taken[p]) == 1 {
        CountsNow(order, quota, n - 1, p);
      }
      forall p, q | 0 <= p < q < |taken| ensures Before(order, taken[p], taken[q]) {
        var i, j := TakenInOrder(order, quota, n - 1, |order|, p, q);
      }
      RoundTakesTurns(order, before, taken, n - 1);
    }
  }

  // The turn at p: an earlier one, or number n and of the round added.
  ghost predicate TurnAt(plan: seq<Kind>, before: seq<Kind>, taken: seq<Kind>, n: nat, p: nat)
    requires p < |plan| == |before| + |taken|
  {
    if p < |before| then Turn(plan, p) == Turn(before, p) < n && plan[p] == before[p]
    else Turn(plan, p) == n && plan[p] == taken[p - |before|]
  }

  // One more round, of kinds that each had all n earlier ones.
  lemma RoundTakesTurns(order: seq<Kind>, before: seq<Kind>, taken: seq<Kind>, n: nat)
    requires TakeTurns(order, before) && Ordered(order, taken)
    requires forall p | 0 <= p < |before| :: Count(before, before[p]) <= n
    requires forall p | 0 <= p < |taken| :: Count(before, taken[p]) == n && Count(taken, taken[p]) == 1
    ensures TakeTurns(order, before + taken)
  {
    forall p | 0 <= p < |before + taken| ensures TurnAt(before + taken, before, taken, n, p) {
      if p < |before| {
        TurnBefore(before, taken, n, p);
      } else {
        TurnNow(before, taken, n, p - |before|);
      }
    }
    forall p, q | 0 <= p < q < |before + taken| ensures InTurn(order, before + taken, p, q) {
      PairTakesTurns(order, before, taken, before + taken, n, p, q);
    }
  }

  lemma PairTakesTurns(order: seq<Kind>, before: seq<Kind>, taken: seq<Kind>, plan: seq<Kind>, n: nat, p: nat, q: nat)
    requires |plan| == |before| + |taken| && p < q < |plan|
    requires TakeTurns(order, before) && Ordered(order, taken)
    requires TurnAt(plan, before, taken, n, p) && TurnAt(plan, before, taken, n, q)
    ensures InTurn(order, plan, p, q)
  {
    if q < |before| {
      assert InTurn(order, before, p, q);
    } else if p >= |before| {
      assert Before(order, taken[p - |before|], taken[q - |before|]);
    }
  }

  // These kinds have this much left after n rounds.
  ghost predicate Holds(left: Quotas, quota: Quotas, order: seq<Kind>, from: nat, to: nat, n: nat) {
    forall i | from <= i < to && i < |order| ::
      order[i] in left && order[i] in quota && left[order[i]] == Left(quota[order[i]], n)
  }

  lemma HoldsAll(left: Quotas, quota: Quotas, order: seq<Kind>, n: nat)
    requires Lists(order, quota) && left.Keys == quota.Keys
    ensures Holds(left, quota, order, 0, |order|, n) <==> left == LeftOf(quota, n)
  {
    if Holds(left, quota, order, 0, |order|, n) {
      forall k | k in quota ensures left[k] == Left(quota[k], n) {
        assert Occurs(order, k);
        var i :| 0 <= i < |order| && order[i] == k;
      }
    }
  }

  // One pass of the inner loop.
  method TakeRound(order: seq<Kind>, remaining: Quotas, plan: seq<Kind>, ghost quota: Quotas, ghost r: nat)
    returns (left: Quotas, extended: seq<Kind>)
    requires Lists(order, quota) && remaining == LeftOf(quota, r)
    ensures left == LeftOf(quota, r + 1)
    ensures extended == plan + Taken(order, quota, r, |order|)
  {
    left, extended := remaining, plan;
    HoldsAll(left, quota, order, r);
    for i := 0 to |order|
      invariant left.Keys == quota.Keys
      invariant extended == plan + Taken(order, quota, r, i)
      invariant Holds(left, quota, order, 0, i, r + 1) && Holds(left, quota, order, i, |order|, r)
    {
      var k := order[i];
      if left[k] > 0 {
        extended := extended + [k];
        left := left[k := left[k] - 1];
      }
    }
    HoldsAll(left, quota, order, r + 1);
  }

  // The plan loop takes whole rounds and stops after the first one that leaves nothing
  // in total.
  method Interleave(order: seq<Kind>, quota: Quotas) returns (plan: seq<Kind>)
    requires Lists(order, quota)
    ensures exists rounds: nat :: plan == Rounds(order, quota, rounds) && Stop(quota, rounds)
    ensures TakeTurns(order, plan)
  {
    var remaining := quota;
    NothingTaken(quota);
    plan := [];
    ghost var rounds: nat := 0;
    var sum := SumRemaining(remaining);
    while sum > 0
      invariant remaining == LeftOf(quota, rounds) && sum == Sum(remaining, quota.Keys)
      invariant plan == Rounds(order, quota, rounds)
      invariant Going(quota, rounds)
      decreases Highest(quota, order, |order|) - rounds
    {
      HighestBounds(quota, order, rounds);
      remaining, plan := TakeRound(order, remaining, plan, quota, rounds);
      rounds := rounds + 1;
      sum := SumRemaining(remaining);
    }
    RoundsTakeTurns(order, quota, rounds);
  }

  lemma NothingTaken(quota: Quotas)
    ensures LeftOf(quota, 0) == quota
  {}

  // The number of rounds the loop takes.
  ghost predicate Stop(quota: Quotas, rounds: nat) {
    Sum(LeftOf(quota, rounds), quota.Keys) <= 0 && Going(quota, rounds)
  }

  // After each of fewer than n rounds something is left in total.
  ghost predicate Going(quota: Quotas, n: nat) {
    n == 0 || (Going(quota, n - 1) && Sum(LeftOf(quota, n - 1), quota.Keys) > 0)
  }

  lemma {:induction false} GoingBefore(quota: Quotas, n: nat, m: nat)
    requires Going(quota, n) && m < n
    ensures Sum(LeftOf(quota, m), quota.Keys) > 0
  {
    if m < n - 1 { GoingBefore(quota, n - 1, m); }
  }

  function Highest(quota: Quotas, order: seq<Kind>, n: nat): nat
    requires n <= |order| && Keyed(order, quota)
  {
    if n == 0 then 0 else Max(Highest(quota, order, n - 1), quota[order[n - 1]])
  }

  lemma {:induction false} HighestIsHighest(quota: Quotas, order: seq<Kind>, n: nat)
    requires n <= |order| && Keyed(order, quota)
    ensures forall i | 0 <= i < n :: quota[order[i]] <= Highest(quota, order, n)
    ensures Highest(quota, order, n) > 0 ==> exists i | 0 <= i < n :: quota[order[i]] == Highest(quota, order, n)
  {
    if n > 0 { HighestIsHighest(quota, order, n - 1); }
  }

  lemma HighestBounds(quota: Quotas, order: seq<Kind>, n: nat)
    requires Lists(order, quota)
    ensures n >= Highest(quota, order, |order|) ==> Sum(LeftOf(quota, n), quota.Keys) <= 0
  {
    HighestIsHighest(quota, order, |order|);
    if n >= Highest(quota, order, |order|) {
      forall k | k in quota ensures LeftOf(quota, n)[k] <= 0 {
        assert Occurs(order, k);
        var i :| 0 <= i < |order| && order[i] == k;
      }
      SumSign(LeftOf(quota, n), quota.Keys);
    }
  }

  // ------------------------------------------------------------------
  // When the plan meets its quotas
  // ------------------------------------------------------------------

  ghost predicate MeetsQuotas(plan: seq<Kind>, quota: Quotas) {
    forall k | k in quota :: Count(plan, k) == Max(quota[k], 0)
  }

  function Debt(quota: Quotas): Quotas {
    map k | k in quota :: Min(quota[k], 0)
  }

  lemma LeftShrinks(quota: Quotas, m: nat, n: nat)
    requires m <= n
    ensures Sum(LeftOf(quota, n), quota.Keys) <= Sum(LeftOf(quota, m), quota.Keys)
  {
    SumGrows(LeftOf(quota, n), LeftOf(quota, m), quota.Keys);
  }

  function WithQuota(quota: Quotas, q: int, keys: set<Kind>): set<Kind>
    requires keys <= quota.Keys
  {
    set k | k in keys && quota[k] == q
  }

  lemma {:induction false} LastRoundSum(quota: Quotas, high: int, keys: set<Kind>)
    requires high > 0 && keys <= quota.Keys && forall k <- keys :: quota[k] <= high
    ensures Sum(LeftOf(quota, high - 1), keys) == |WithQuota(quota, high, keys)| + Sum(Debt(quota), keys)
  {
    var top := WithQuota(quota, high, keys);
    if keys == {} {
      assert top == {};
    } else {
      var k :| k in keys;
      SumAnyFirst(LeftOf(quota, high - 1), keys, k);
      SumAnyFirst(Debt(quota), keys, k);
      LastRoundSum(quota, high, keys - {k});
      var rest := WithQuota(quota, high, keys - {k});
      if quota[k] == high {
        assert top == rest + {k};
      } else {
        assert top == rest;
      }
    }
  }

  // The loop ends with the first round after which nothing is left in total, whichever
  // that is.
  lemma StopsFirst(quota: Quotas, rounds: nat, n: nat)
    requires Stop(quota, rounds)
    ensures n < rounds <==> Sum(LeftOf(quota, n), quota.Keys) > 0
  {
    if n < rounds {
      GoingBefore(quota, rounds, n);
    } else {
      LeftShrinks(quota, rounds, n);
    }
  }

  // It never outlasts the highest quota, and reaches it exactly when something is left in
  // total one round before.
  lemma StopsAtHighest(order: seq<Kind>, quota: Quotas, rounds: nat)
    requires Lists(order, quota) && Stop(quota, rounds)
    ensures var high := Highest(quota, order, |order|);
      && rounds <= high
      && (high > 0 ==> (rounds == high <==> Sum(LeftOf(quota, high - 1), quota.Keys) > 0))
  {
    var high := Highest(quota, order, |order|);
    HighestBounds(quota, order, high);
    StopsFirst(quota, rounds, high);
    if high > 0 { StopsFirst(quota, rounds, high - 1); }
  }

  lemma MetWhenLongEnough(order: seq<Kind>, quota: Quotas, n: nat)
    requires Lists(order, quota)
    ensures MeetsQuotas(Rounds(order, quota, n), quota) <==> n >= Highest(quota, order, |order|)
  {
    var plan, high := Rounds(order, quota, n), Highest(quota, order, |order|);
    HighestIsHighest(quota, order, |order|);
    forall i | 0 <= i < |order| ensures Count(plan, order[i]) == Max(0, Min(quota[order[i]], n)) {
      RoundsCount(order, quota, n, i);
    }
    if n >= high {
      forall k | k in quota ensures Count(plan, k) == Max(quota[k], 0) {
        assert Occurs(order, k);
        var i :| 0 <= i < |order| && order[i] == k;
      }
    } else {
      var i :| 0 <= i < |order| && quota[order[i]] == high;
      assert Count(plan, order[i]) != Max(quota[order[i]], 0);
    }
  }

  // Every quota is met exactly when none is positive, or the kinds sharing the highest
  // quota outnumber the total of the negative ones.
  lemma QuotasMetExactly(order: seq<Kind>, quota: Quotas, rounds: nat)
    requires Lists(order, quota) && Stop(quota, rounds)
    ensures var high := Highest(quota, order, |order|);
      MeetsQuotas(Rounds(order, quota, rounds), quota) <==>
      high == 0 || |WithQuota(quota, high, quota.Keys)| + Sum(Debt(quota), quota.Keys) > 0
  {
    MetWhenLongEnough(order, quota, rounds);
    StopsAtHighest(order, quota, rounds);
    var high := Highest(quota, order, |order|);
    if high > 0 {
      AtMostHighest(order, quota);
      LastRoundSum(quota, high, quota.Keys);
    }
  }

  lemma AtMostHighest(order: seq<Kind>, quota: Quotas)
    requires Lists(order, quota)
    ensures forall k <- quota.Keys :: quota[k] <= Highest(quota, order, |order|)
    ensures var high := Highest(quota, order, |order|);
      high > 0 ==> WithQuota(quota, high, quota.Keys) != {}
  {
    var high := Highest(quota, order, |order|);
    HighestIsHighest(quota, order, |order|);
    forall k | k in quota ensures quota[k] <= high {
      assert Occurs(order, k);
      var i :| 0 <= i < |order| && order[i] == k;
    }
    if high > 0 {
      var i :| 0 <= i < |order| && quota[order[i]] == high;
      assert order[i] in WithQuota(quota, high, quota.Keys);
    }
  }

  lemma NoDebtMeetsQuotas(order: seq<Kind>, quota: Quotas, rounds: nat)
    requires Lists(order, quota) && Stop(quota, rounds) && forall k <- quota :: quota[k] >= 0
    ensures MeetsQuotas(Rounds(order, quota, rounds), quota)
  {
    QuotasMetExactly(order, quota, rounds);
    AtMostHighest(order, quota);
    SumSign(Debt(quota), quota.Keys);
  }

  // ------------------------------------------------------------------
  // The length of the plan
  // ------------------------------------------------------------------

  ghost function FirstKinds(order: seq<Kind>, n: nat): set<Kind>
    requires n <= |order|
  {
    set i | 0 <= i < n :: order[i]
  }

  lemma {:induction false} TakenLength(order: seq<Kind>, quota: Quotas, r: nat, n: nat)
    requires n <= |order| && Keyed(order, quota) && Distinct(order)
    ensures FirstKinds(order, n) <= quota.Keys
    ensures |Taken(order, quota, r, n)|
         == Sum(LeftOf(quota, r), FirstKinds(order, n)) - Sum(LeftOf(quota, r + 1), FirstKinds(order, n))
    decreases n
  {
    if n == 0 {
      assert FirstKinds(order, n) == {};
    } else {
      TakenLength(order, quota, r, n - 1);
      TakenNext(order, quota, r, n - 1);
      SumNext(LeftOf(quota, r), order, n);
      SumNext(LeftOf(quota, r + 1), order, n);
    }
  }

  lemma TakenNext(order: seq<Kind>, quota: Quotas, r: nat, n: nat)
    requires n < |order| && Keyed(order, quota)
    ensures |Taken(order, quota, r, n + 1)| - |Taken(order, quota, r, n)|
         == LeftOf(quota, r)[order[n]] - LeftOf(quota, r + 1)[order[n]]
  {
  }

  lemma SumNext(m: Quotas, order: seq<Kind>, n: nat)
    requires 0 < n <= |order| && Keyed(order, m) && Distinct(order)
    ensures FirstKinds(order, n - 1) <= m.Keys && FirstKinds(order, n) <= m.Keys
    ensures Sum(m, FirstKinds(order, n)) == Sum(m, FirstKinds(order, n - 1)) + m[order[n - 1]]
  {
    var kinds, before, last := FirstKinds(order, n), FirstKinds(order, n - 1), order[n - 1];
    assert last !in before && last in kinds;
    assert kinds - {last} == before;
    SumAnyFirst(m, kinds, last);
  }

  lemma AllKinds(order: seq<Kind>, quota: Quotas)
    requires Lists(order, quota)
    ensures FirstKinds(order, |order|) == quota.Keys
  {
    forall k | k in quota ensures k in FirstKinds(order, |order|) {
      assert Occurs(order, k);
    }
  }

  lemma {:induction false} RoundsLength(order: seq<Kind>, quota: Quotas, n: nat)
    requires Lists(order, quota)
    ensures |Rounds(order, quota, n)| == Sum(quota, quota.Keys) - Sum(LeftOf(quota, n), quota.Keys)
    decreases n
  {
    if n == 0 {
      NothingTaken(quota);
    } else {
      AllKinds(order, quota);
      RoundsLength(order, quota, n - 1);
      TakenLength(order, quota, n - 1, |order|);
    }
  }

  lemma AllTaken(order: seq<Kind>, quota: Quotas, rounds: nat)
    requires Lists(order, quota) && Stop(quota, rounds) && forall k <- quota :: quota[k] >= 0
    ensures |Rounds(order, quota, rounds)| == Sum(quota, quota.Keys)
  {
    RoundsLength(order, quota, rounds);
    SumSign(LeftOf(quota, rounds), quota.Keys);
  }

  // ------------------------------------------------------------------
  // The whole plan
  // ------------------------------------------------------------------

  datatype Distribution = Distribution(single: int, multi: int, superseding: int, contradiction: int, noise: int)

  const KIND_ORDER := [Single, Multi, Supersede, Contradiction, Noise]

  // What phase 1 leaves to interleave.
  function Remaining(d: Distribution): Quotas {
    map[Single := d.single - 60, Multi := d.multi - 20, Supersede := d.superseding,
        Contradiction := d.contradiction, Noise := d.noise]
  }

  lemma RemainingSum(d: Distribution)
    ensures Lists(KIND_ORDER, Remaining(d))
    ensures Sum(Remaining(d), Remaining(d).Keys)
         == d.single + d.multi + d.superseding + d.contradiction + d.noise - 80
  {
    var m := Remaining(d);
    var all := {Single, Multi, Supersede, Contradiction, Noise};
    assert m.Keys == all;
    forall k: Kind ensures Occurs(KIND_ORDER, k) {
      assert k == KIND_ORDER[0] || k == KIND_ORDER[1] || k == KIND_ORDER[2] || k == KIND_ORDER[3] || k == KIND_ORDER[4];
    }
    SumAnyFirst(m, all, Single);
    SumAnyFirst(m, all - {Single}, Multi);
    SumAnyFirst(m, all - {Single} - {Multi}, Supersede);
    SumAnyFirst(m, all - {Single} - {Multi} - {Supersede}, Contradiction);
    var last := all - {Single} - {Multi} - {Supersede} - {Contradiction};
    assert last == {Noise};
    SumAnyFirst(m, last, Noise);
    assert last - {Noise} == {};
  }

  // Phase 1: eighty artifacts, every fourth of them multi-entity.
  function Phase1(n: nat): (plan: seq<Kind>)
    ensures |plan| == n
  {
    if n == 0 then [] else Phase1(n - 1) + [if (n - 1) % 4 == 0 then Multi else Single]
  }

  lemma {:induction false} Phase1Counts(n: nat, k: Kind)
    ensures Count(Phase1(n), k) ==
      if k == Multi then (n + 3) / 4 else if k == Single then n - (n + 3) / 4 else 0
  {
    if n > 0 {
      Phase1Counts(n - 1, k);
      var kind := if (n - 1) % 4 == 0 then Multi else Single;
      CountAppend(Phase1(n - 1), [kind], k);
      CountOne(kind, k);
    }
  }

  // No quota is negative and phase 1 exceeds none, as with the generator's own 300, 100, 50, 25, 25.
  predicate Roomy(d: Distribution) {
    d.single >= 60 && d.multi >= 20 && d.superseding >= 0 && d.contradiction >= 0 && d.noise >= 0
  }

  function Wanted(d: Distribution, kind: Kind): int {
    match kind
    case Single => d.single
    case Multi => d.multi
    case Supersede => d.superseding
    case Contradiction => d.contradiction
    case Noise => d.noise
  }

  function PlanOf(d: Distribution, rounds: nat): seq<Kind> {
    Phase1(80) + Rounds(KIND_ORDER, Remaining(d), rounds)
  }

  // A kind occurs as often as phase 1 and the rounds take it.
  lemma PlanCounts(d: Distribution, rounds: nat, kind: Kind)
    requires Lists(KIND_ORDER, Remaining(d))
    ensures kind in Remaining(d)
    ensures Count(PlanOf(d, rounds), kind)
         == Wanted(d, kind) - Remaining(d)[kind] + Max(0, Min(Remaining(d)[kind], rounds))
  {
    var quota := Remaining(d);
    assert kind in quota && Occurs(KIND_ORDER, kind);
    var i :| 0 <= i < |KIND_ORDER| && KIND_ORDER[i] == kind;
    RoundsCount(KIND_ORDER, quota, rounds, i);
    Phase1Counts(80, kind);
    CountAppend(Phase1(80), Rounds(KIND_ORDER, quota, rounds), kind);
  }

  lemma RoomyCounts(d: Distribution, rounds: nat, kind: Kind)
    requires Lists(KIND_ORDER, Remaining(d)) && Stop(Remaining(d), rounds) && Roomy(d)
    ensures Count(PlanOf(d, rounds), kind) == Wanted(d, kind)
  {
    var quota := Remaining(d);
    assert kind in quota;
    NoDebtMeetsQuotas(KIND_ORDER, quota, rounds);
    Phase1Counts(80, kind);
    CountAppend(Phase1(80), Rounds(KIND_ORDER, quota, rounds), kind);
  }

  // Every kind occurs exactly as distributed if and only if no quota is negative and phase 1
  // exceeds none.
  lemma PlanAsDistributedExactly(d: Distribution, rounds: nat)
    requires Lists(KIND_ORDER, Remaining(d)) && Stop(Remaining(d), rounds)
    ensures (forall kind: Kind :: Count(PlanOf(d, rounds), kind) == Wanted(d, kind)) <==> Roomy(d)
  {
    if Roomy(d) {
      forall kind: Kind ensures Count(PlanOf(d, rounds), kind) == Wanted(d, kind) {
        RoomyCounts(d, rounds, kind);
      }
    } else {
      PlanCounts(d, rounds, Single);
      PlanCounts(d, rounds, Multi);
      PlanCounts(d, rounds, Supersede);
      PlanCounts(d, rounds, Contradiction);
      PlanCounts(d, rounds, Noise);
    }
  }

  // Phase 1 and then whole rounds of what it leaves, for every distribution; a plan of the
  // wrong length is refused.
  method BuildPlan(d: Distribution, total: int) returns (plan: seq<Kind>, ok: bool)
    ensures exists rounds: nat :: Stop(Remaining(d), rounds) && plan == PlanOf(d, rounds)
    ensures |plan| >= 80 && (forall i | 0 <= i < 80 :: plan[i] == if i % 4 == 0 then Multi else Single)
    ensures TakeTurns(KIND_ORDER, plan[80..])
    ensures Roomy(d) <==> forall kind: Kind :: Count(plan, kind) == Wanted(d, kind)
    ensures ok <==> |plan| == total
    ensures Roomy(d) ==> (ok <==> d.single + d.multi + d.superseding + d.contradiction + d.noise == total)
  {
    plan := [];
    for i := 0 to 80
      invariant plan == Phase1(i) && forall j | 0 <= j < i :: plan[j] == if j % 4 == 0 then Multi else Single
    {
      plan := plan + [if i % 4 == 0 then Multi else Single];
    }
    RemainingSum(d);
    var rest := Interleave(KIND_ORDER, Remaining(d));
    ghost var rounds: nat :| rest == Rounds(KIND_ORDER, Remaining(d), rounds) && Stop(Remaining(d), rounds);
    PlanAsDistributedExactly(d, rounds);
    if Roomy(d) { AllTaken(KIND_ORDER, Remaining(d), rounds); }
    plan := plan + rest;
    assert plan[80..] == rest;
    ok := |plan| == total;
  }
}
