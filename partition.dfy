/** `iid`: splits the training set among the clients. Each client in the
    combination list takes a share of the normal samples, removed from the
    normal pool, and a share of each attack class its combination names,
    removed from that class's pool unless the pool is already too small, in
    which case the whole pool is handed over and stays. */
module Partition {
  import opened Basics

  /** The normal samples come first in the label-sorted index list, then four
      attack classes of this many each. */
  const NormalPoolSize: nat := 280000
  const ClassPoolSize: nat := 70000
  /** At most this many clients receive data. */
  const MaxCombinations: nat := 100

  function NumNormal(numUsers: nat): nat
    requires numUsers > 0
  {
    NormalPoolSize / numUsers
  }

  function NumAttack(numUsers: nat, degree: nat): nat
    requires numUsers > 0 && degree > 0
  {
    NormalPoolSize / (numUsers * degree)
  }

  // ---------------------------------------------------------------------------
  // Combinations

  /** Prepend `v` to every list. */
  function Prefixed(v: nat, s: seq<seq<nat>>): (r: seq<seq<nat>>)
    ensures |r| == |s| && forall i :: 0 <= i < |s| ==> r[i] == [v] + s[i]
  {
    seq(|s|, i requires 0 <= i < |s| => [v] + s[i])
  }

  predicate Increasing(c: seq<nat>)
  {
    forall a, b :: 0 <= a < b < |c| ==> c[a] < c[b]
  }

  /** `itertools.combinations(range(lo, 5), k)`: the k-element increasing
      lists over lo..4, in lexicographic order; there are `C(5 - lo, k)` of
      them. */
  function Combinations(lo: nat, k: nat): (r: seq<seq<nat>>)
    requires lo <= 5
    ensures |r| == Binomial(5 - lo, k)
    ensures forall i :: 0 <= i < |r| ==>
              |r[i]| == k && Increasing(r[i]) && forall a :: 0 <= a < k ==> lo <= r[i][a] <= 4
    decreases 5 - lo
  {
    if k == 0 then [[]]
    else if lo == 5 then []
    else Prefixed(lo, Combinations(lo + 1, k - 1)) + Combinations(lo + 1, k)
  }

  /** The binomial coefficient by Pascal's rule. */
  function Binomial(n: nat, k: nat): nat
  {
    if k == 0 then 1 else if n == 0 then 0 else Binomial(n - 1, k - 1) + Binomial(n - 1, k)
  }

  /** The binomial coefficients `C(4, k)` for k from 1 to 4. */
  lemma BinomialsOfFour()
    ensures Binomial(4, 1) == 4 && Binomial(4, 2) == 6 && Binomial(4, 3) == 4 && Binomial(4, 4) == 1
  {
    assert Binomial(1, 1) == 1 && Binomial(1, 2) == 0;
    assert Binomial(2, 1) == 2 && Binomial(2, 2) == 1 && Binomial(2, 3) == 0;
    assert Binomial(3, 1) == 3 && Binomial(3, 2) == 3 && Binomial(3, 3) == 1 && Binomial(3, 4) == 0;
  }

  /** For a degree between 1 and 4 there are 4, 6, 4 or 1 combinations. */
  lemma CombinationsOfDegree(degree: nat)
    requires 1 <= degree <= 4
    ensures |Combinations(1, degree)| == if degree == 2 then 6 else if degree == 4 then 1 else 4
  {
    BinomialsOfFour();
  }

  /** Later combinations never come before earlier ones: the first element
      never decreases along the list. */
  lemma {:induction false} CombinationsLeadingOrder(lo: nat, k: nat, i: nat, j: nat)
    requires lo <= 5 && k > 0
    requires i < j < |Combinations(lo, k)|
    ensures Combinations(lo, k)[i][0] <= Combinations(lo, k)[j][0]
    decreases 5 - lo
  {
    var r := Combinations(lo, k);
    var left := Prefixed(lo, Combinations(lo + 1, k - 1));
    if j >= |left| && i >= |left| {
      CombinationsLeadingOrder(lo + 1, k, i - |left|, j - |left|);
    }
  }

  /** `n` copies of `s`, one after another. */
  function Repeat(s: seq<seq<nat>>, n: nat): (r: seq<seq<nat>>)
    ensures |r| == n * |s|
    ensures forall e :: 0 <= e < |r| ==> r[e] in s
  {
    if n == 0 then [] else Repeat(s, n - 1) + s
  }

  lemma {:induction false} RepeatAt(s: seq<seq<nat>>, n: nat, i: nat)
    requires i < n * |s|
    ensures |s| > 0 && Repeat(s, n)[i] == s[i % |s|]
  {
    var m := n - 1;
    assert n * |s| == m * |s| + |s|;
    if i < m * |s| {
      RepeatAt(s, m, i);
    } else {
      var j := i - m * |s|;
      ModAfterMultiples(m, |s|, j);
    }
  }

  lemma MulAtLeast(k: int, d: nat)
    requires k >= 1 && d > 0
    ensures k * d >= d
  {
  }

  lemma ModStep(x: nat, d: nat)
    requires d > 0
    ensures (x + d) % d == x % d
  {
    var q, r := x / d, x % d;
    var q2, r2 := (x + d) / d, (x + d) % d;
    var k := q2 - q - 1;
    assert k * d == r - r2;
    if k >= 1 {
      MulAtLeast(k, d);
    } else if k <= -1 {
      MulAtLeast(-k, d);
    }
  }

  lemma {:induction false} ModAfterMultiples(m: nat, d: nat, j: nat)
    requires j < d
    ensures (m * d + j) % d == j
  {
    if m > 0 {
      ModAfterMultiples(m - 1, d, j);
      var x := (m - 1) * d + j;
      assert m * d + j == x + d;
      ModStep(x, d);
    }
  }

  /** `ceil(num_users / C)`, exact for the integers involved. */
  function Copies(numUsers: nat, c: nat): (n: nat)
    requires c > 0
    ensures n * c >= numUsers && (n * c == numUsers <==> numUsers % c == 0)
    ensures n > 0 ==> (n - 1) * c < numUsers
  {
    var q := numUsers / c;
    assert numUsers == q * c + numUsers % c;
    if numUsers % c == 0 then q
    else assert (q + 1) * c == q * c + c; q + 1
  }

  /** `comb_rand`: the combination list repeated to cover every client,
      then cut to its first 100 entries. */
  function CombRand(numUsers: nat, degree: nat): (r: seq<seq<nat>>)
    requires 1 <= degree <= 4
    ensures forall e :: 0 <= e < |r| ==> r[e] in Combinations(1, degree)
    ensures ClassesOnly(r)
    ensures forall e :: 0 <= e < |r| ==> Increasing(r[e])
  {
    var combs := Combinations(1, degree);
    CombinationsOfDegree(degree);
    var all := Repeat(combs, Copies(numUsers, |combs|));
    var r := all[..if |all| < MaxCombinations then |all| else MaxCombinations];
    DrawnClassesOnly(r, degree);
    r
  }

  /** Entries drawn from the combinations name attack classes only. */
  lemma DrawnClassesOnly(r: seq<seq<nat>>, degree: nat)
    requires forall e :: 0 <= e < |r| ==> r[e] in Combinations(1, degree)
    ensures ClassesOnly(r)
    ensures forall e :: 0 <= e < |r| ==> Increasing(r[e])
  {
    var combs := Combinations(1, degree);
    forall e, a | 0 <= e < |r| && 0 <= a < |r[e]|
      ensures 1 <= r[e][a] <= 4
    {
      var j :| 0 <= j < |combs| && combs[j] == r[e];
    }
    forall e | 0 <= e < |r|
      ensures Increasing(r[e])
    {
      var j :| 0 <= j < |combs| && combs[j] == r[e];
    }
  }

  /** `comb_rand` cycles through the combinations in order, has
      `min(100, copies * C)` entries, and each entry names distinct attack
      classes among 1..4. */
  lemma CombRandShape(numUsers: nat, degree: nat)
    requires 1 <= degree <= 4
    ensures var combs := Combinations(1, degree);
            var r := CombRand(numUsers, degree);
            && |combs| > 0
            && |r| == (var n := Copies(numUsers, |combs|) * |combs|; if n < MaxCombinations then n else MaxCombinations)
            && forall i :: 0 <= i < |r| ==> r[i] == combs[i % |combs|]
  {
    var combs := Combinations(1, degree);
    CombinationsOfDegree(degree);
    var r := CombRand(numUsers, degree);
    forall i | 0 <= i < |r|
      ensures r[i] == combs[i % |combs|]
    {
      CombRandAt(numUsers, degree, i);
    }
  }

  /** Entry i of `comb_rand` is combination `i mod C`. */
  lemma CombRandAt(numUsers: nat, degree: nat, i: nat)
    requires 1 <= degree <= 4 && i < |CombRand(numUsers, degree)|
    ensures var combs := Combinations(1, degree);
            |combs| > 0 && CombRand(numUsers, degree)[i] == combs[i % |combs|]
  {
    var combs := Combinations(1, degree);
    CombinationsOfDegree(degree);
    RepeatAt(combs, Copies(numUsers, |combs|), i);
  }

  /** `dict_users[i]` exists for every entry of `comb_rand` exactly when
      there are at least 100 clients or the number of combinations divides
      the number of clients. */
  lemma CombRandFits(numUsers: nat, degree: nat)
    requires 1 <= degree <= 4
    ensures (|CombRand(numUsers, degree)| <= numUsers)
              <==> (numUsers >= MaxCombinations || numUsers % |Combinations(1, degree)| == 0)
  {
    CombRandShape(numUsers, degree);
  }

  /** The loop that builds `comb_rand`. */
  method BuildCombRand(numUsers: nat, degree: nat) returns (combRand: seq<seq<nat>>)
    requires 1 <= degree <= 4
    ensures combRand == CombRand(numUsers, degree)
  {
    var combs := Combinations(1, degree);
    CombinationsOfDegree(degree);
    var comb: seq<seq<nat>> := [];
    var copies := Copies(numUsers, |combs|);
    for i := 0 to copies
      invariant comb == Repeat(combs, i)
    {
      comb := comb + combs;
    }
    combRand := comb[..if |comb| < MaxCombinations then |comb| else MaxCombinations];
  }

  // ---------------------------------------------------------------------------
  // Pools

  /** The empty index array every client starts with. */
  function NoData(user: nat): seq<nat>
  {
    []
  }

  /** The index pools cut from the label-sorted index list: the normal
      samples, then one pool per attack class 1..4. */
  function InitialPools(sortedIdxs: seq<nat>): (p: seq<set<nat>>)
    requires |sortedIdxs| == 2 * NormalPoolSize
    ensures |p| == 5
    ensures p[0] == Elems(sortedIdxs[..NormalPoolSize])
    ensures forall c :: 1 <= c <= 4 ==>
              p[c] == Elems(sortedIdxs[NormalPoolSize + (c - 1) * ClassPoolSize..NormalPoolSize + c * ClassPoolSize])
  {
    [Elems(sortedIdxs[..NormalPoolSize])]
      + seq(4, c requires 0 <= c < 4 =>
              Elems(sortedIdxs[NormalPoolSize + c * ClassPoolSize..NormalPoolSize + (c + 1) * ClassPoolSize]))
  }

  /** Where pool c starts in the label-sorted index list, and its size. */
  function PoolStart(c: nat): nat
  {
    if c == 0 then 0 else NormalPoolSize + (c - 1) * ClassPoolSize
  }

  function PoolSize(c: nat): nat
  {
    if c == 0 then NormalPoolSize else ClassPoolSize
  }

  lemma SliceDistinct(s: seq<nat>, lo: nat, hi: nat)
    requires lo <= hi <= |s| && Distinct(s)
    ensures |Elems(s[lo..hi])| == hi - lo
  {
    var t := s[lo..hi];
    assert forall a, b :: 0 <= a < b < |t| ==> t[a] == s[lo + a] && t[b] == s[lo + b];
    ElemsCardinality(t);
  }

  lemma SlicesDisjoint(s: seq<nat>, lo1: nat, hi1: nat, lo2: nat, hi2: nat)
    requires lo1 <= hi1 <= lo2 <= hi2 <= |s| && Distinct(s)
    ensures Elems(s[lo1..hi1]) !! Elems(s[lo2..hi2])
  {
    assert forall a :: lo1 <= a < hi1 ==> s[lo1..hi1][a - lo1] == s[a];
  }

  /** When the sorted index list is a permutation (as the arg-sort of
      `arange` is), the normal pool has 280000 indices, each attack class
      70000, and no index sits in two pools. */
  lemma InitialPoolsOfPermutation(sortedIdxs: seq<nat>)
    requires |sortedIdxs| == 2 * NormalPoolSize && Distinct(sortedIdxs)
    ensures var p := InitialPools(sortedIdxs);
            && |p[0]| == NormalPoolSize
            && (forall c :: 1 <= c <= 4 ==> |p[c]| == ClassPoolSize)
            && (forall a, b :: 0 <= a < b < 5 ==> p[a] !! p[b])
  {
    var p := InitialPools(sortedIdxs);
    forall c | 0 <= c < 5
      ensures p[c] == Elems(sortedIdxs[PoolStart(c)..PoolStart(c) + PoolSize(c)])
      ensures |p[c]| == PoolSize(c)
    {
      SliceDistinct(sortedIdxs, PoolStart(c), PoolStart(c) + PoolSize(c));
    }
    forall a, b | 0 <= a < b < 5
      ensures p[a] !! p[b]
    {
      SlicesDisjoint(sortedIdxs, PoolStart(a), PoolStart(a) + PoolSize(a), PoolStart(b), PoolStart(b) + PoolSize(b));
    }
  }

  lemma DiffCardinality(a: set<nat>, b: set<nat>)
    requires b <= a
    ensures |a - b| == |a| - |b|
  {
    assert a == (a - b) + b;
    assert (a - b) !! b;
  }

  lemma ElemsAppend(a: seq<nat>, b: seq<nat>)
    ensures Elems(a + b) == Elems(a) + Elems(b)
  {
    assert forall x :: x in a + b <==> x in a || x in b;
  }

  /** `pool[0:k]` of a pool whose order is unknown: some k of its elements. */
  method TakeSome(pool: set<nat>, k: nat) returns (taken: set<nat>)
    requires k <= |pool|
    ensures taken <= pool && |taken| == k
  {
    taken := {};
    while |taken| < k
      invariant taken <= pool && |taken| <= k
      decreases k - |taken|
    {
      DiffCardinality(pool, taken);
      var v :| v in pool - taken;
      taken := taken + {v};
    }
  }

  /** One attack class's share: `num_attack` elements, removed from the
      pool, when the pool has that many; otherwise the whole pool, which is
      not removed. */
  method TakeAttack(pool: set<nat>, numAttack: nat) returns (given: set<nat>, rest: set<nat>)
    ensures |pool| >= numAttack ==> given <= pool && |given| == numAttack && rest == pool - given
    ensures |pool| < numAttack ==> given == pool && rest == pool
  {
    if |pool| >= numAttack {
      given := TakeSome(pool, numAttack);
      rest := pool - given;
    } else {
      given, rest := pool, pool;
    }
  }

  /** Combination entries name attack classes. */
  predicate ClassesOnly(combRand: seq<seq<nat>>)
  {
    forall e, a :: 0 <= e < |combRand| && 0 <= a < |combRand[e]| ==> 1 <= combRand[e][a] <= 4
  }

  /** One combination's entries name attack classes. */
  predicate AttackClasses(classes: seq<nat>)
  {
    forall a :: 0 <= a < |classes| ==> 1 <= classes[a] <= 4
  }

  /** No index sits in two pools, as with the pools of a permutation. */
  predicate Separate(pools0: seq<set<nat>>)
    requires |pools0| == 5
  {
    forall a, b :: 0 <= a < b < 5 ==> pools0[a] !! pools0[b]
  }

  /** A fair draw `g` from attack pool `cls` of `p`: `num_attack` of its
      indices when it has that many, otherwise the whole pool. */
  predicate FairDraw(p: seq<set<nat>>, cls: nat, g: set<nat>, numAttack: nat)
    requires |p| == 5 && 1 <= cls <= 4
  {
    if |p[cls]| >= numAttack then g <= p[cls] && |g| == numAttack else g == p[cls]
  }

  /** The pools after drawing `g` from pool `cls`: a full share is removed,
      a short pool is left as it was. */
  function Drawn(p: seq<set<nat>>, cls: nat, g: set<nat>, numAttack: nat): (r: seq<set<nat>>)
    requires |p| == 5 && 1 <= cls <= 4
    ensures |r| == 5 && r[0] == p[0]
    ensures forall c :: 0 <= c < 5 && c != cls ==> r[c] == p[c]
  {
    if |p[cls]| >= numAttack then p[cls := p[cls] - g] else p
  }

  /** The pools after one client drew `gs[t]` from pool `classes[t]`, in
      order. */
  function AfterClient(p: seq<set<nat>>, classes: seq<nat>, gs: seq<set<nat>>, numAttack: nat): (r: seq<set<nat>>)
    requires |p| == 5 && AttackClasses(classes) && |gs| == |classes|
    ensures |r| == 5 && r[0] == p[0]
    decreases |classes|
  {
    if |classes| == 0 then p
    else
      var n := |classes| - 1;
      Drawn(AfterClient(p, classes[..n], gs[..n], numAttack), classes[n], gs[n], numAttack)
  }

  /** Every draw of one client is fair against the pools as they stand at
      that draw. */
  predicate ClientDrawsFair(p: seq<set<nat>>, classes: seq<nat>, gs: seq<set<nat>>, numAttack: nat)
    requires |p| == 5 && AttackClasses(classes) && |gs| == |classes|
    decreases |classes|
  {
    |classes| == 0 ||
    var n := |classes| - 1;
    && ClientDrawsFair(p, classes[..n], gs[..n], numAttack)
    && FairDraw(AfterClient(p, classes[..n], gs[..n], numAttack), classes[n], gs[n], numAttack)
  }

  /** All indices of a sequence of draws. */
  function Union(gs: seq<set<nat>>): (r: set<nat>)
    ensures forall t :: 0 <= t < |gs| ==> gs[t] <= r
  {
    if |gs| == 0 then {} else Union(gs[..|gs| - 1]) + gs[|gs| - 1]
  }

  /** Shapes of the attack draws for the first `|gss|` clients. */
  predicate DrawShapes(combRand: seq<seq<nat>>, normalParts: seq<set<nat>>, gss: seq<seq<set<nat>>>)
  {
    && |normalParts| == |gss| <= |combRand|
    && forall i :: 0 <= i < |gss| ==> |gss[i]| == |combRand[i]|
  }

  /** The pools after clients 0..|gss|-1 each took their normal share and
      then drew from the attack pools of their combination. */
  function AfterClients(pools0: seq<set<nat>>, combRand: seq<seq<nat>>, normalParts: seq<set<nat>>,
                        gss: seq<seq<set<nat>>>, numAttack: nat): (r: seq<set<nat>>)
    requires |pools0| == 5 && ClassesOnly(combRand) && DrawShapes(combRand, normalParts, gss)
    ensures |r| == 5
    decreases |gss|
  {
    if |gss| == 0 then pools0
    else
      var n := |gss| - 1;
      var p := AfterClients(pools0, combRand, normalParts[..n], gss[..n], numAttack);
      AfterClient(p[0 := p[0] - normalParts[n]], combRand[n], gss[n], numAttack)
  }

  /** Every client's attack draws are fair against the pools that the
      clients before it, and its own normal share, left. */
  predicate AllFair(pools0: seq<set<nat>>, combRand: seq<seq<nat>>, normalParts: seq<set<nat>>,
                    gss: seq<seq<set<nat>>>, numAttack: nat)
    requires |pools0| == 5 && ClassesOnly(combRand) && DrawShapes(combRand, normalParts, gss)
    decreases |gss|
  {
    |gss| == 0 ||
    var n := |gss| - 1;
    var p := AfterClients(pools0, combRand, normalParts[..n], gss[..n], numAttack);
    && AllFair(pools0, combRand, normalParts[..n], gss[..n], numAttack)
    && ClientDrawsFair(p[0 := p[0] - normalParts[n]], combRand[n], gss[n], numAttack)
  }

  /** A full draw leaves its pool `num_attack` smaller and without the
      drawn indices, so no later client receives them again. */
  lemma FullDrawRemoves(p: seq<set<nat>>, cls: nat, g: set<nat>, numAttack: nat)
    requires |p| == 5 && 1 <= cls <= 4 && FairDraw(p, cls, g, numAttack) && |p[cls]| >= numAttack
    ensures |Drawn(p, cls, g, numAttack)[cls]| == |p[cls]| - numAttack
    ensures g !! Drawn(p, cls, g, numAttack)[cls]
  {
    DiffCardinality(p[cls], g);
  }

  /** A pool too small for `num_attack` is handed over whole and stays as
      it was. */
  lemma ShortDrawKeeps(p: seq<set<nat>>, cls: nat, g: set<nat>, numAttack: nat)
    requires |p| == 5 && 1 <= cls <= 4 && FairDraw(p, cls, g, numAttack) && |p[cls]| < numAttack
    ensures g == p[cls] && Drawn(p, cls, g, numAttack) == p
  {
  }

  /** The t-th draw of a client is fair against the pools its earlier
      draws left. */
  lemma {:induction false} ClientDrawsFairAt(p: seq<set<nat>>, classes: seq<nat>, gs: seq<set<nat>>, numAttack: nat, t: nat)
    requires |p| == 5 && AttackClasses(classes) && |gs| == |classes| && t < |classes|
    requires ClientDrawsFair(p, classes, gs, numAttack)
    ensures FairDraw(AfterClient(p, classes[..t], gs[..t], numAttack), classes[t], gs[t], numAttack)
    decreases |classes|
  {
    var n := |classes| - 1;
    if t < n {
      ClientDrawsFairAt(p, classes[..n], gs[..n], numAttack, t);
      assert classes[..n][..t] == classes[..t] && gs[..n][..t] == gs[..t];
    }
  }

  /** A pool too small for `num_attack` is not changed by any client's
      draws. */
  lemma {:induction false} ShortPoolStays(p: seq<set<nat>>, classes: seq<nat>, gs: seq<set<nat>>, numAttack: nat, c: nat)
    requires |p| == 5 && AttackClasses(classes) && |gs| == |classes| && 1 <= c <= 4 && |p[c]| < numAttack
    ensures AfterClient(p, classes, gs, numAttack)[c] == p[c]
    decreases |classes|
  {
    if |classes| > 0 {
      var n := |classes| - 1;
      ShortPoolStays(p, classes[..n], gs[..n], numAttack, c);
    }
  }

  /** Client i's draws are fair against the pools the clients before it
      and its own normal share left. */
  lemma {:induction false} AllFairAt(pools0: seq<set<nat>>, combRand: seq<seq<nat>>, normalParts: seq<set<nat>>,
                                     gss: seq<seq<set<nat>>>, numAttack: nat, i: nat)
    requires |pools0| == 5 && ClassesOnly(combRand) && DrawShapes(combRand, normalParts, gss) && i < |gss|
    requires AllFair(pools0, combRand, normalParts, gss, numAttack)
    ensures var p := AfterClients(pools0, combRand, normalParts[..i], gss[..i], numAttack);
            ClientDrawsFair(p[0 := p[0] - normalParts[i]], combRand[i], gss[i], numAttack)
    decreases |gss|
  {
    var n := |gss| - 1;
    if i < n {
      AllFairAt(pools0, combRand, normalParts[..n], gss[..n], numAttack, i);
      assert normalParts[..n][..i] == normalParts[..i] && gss[..n][..i] == gss[..i];
    }
  }

  /** An attack pool too small for `num_attack` before client i is still
      there, unchanged, before every later client j. */
  lemma {:induction false} ShortPoolReachesLater(pools0: seq<set<nat>>, combRand: seq<seq<nat>>, normalParts: seq<set<nat>>,
                                                 gss: seq<seq<set<nat>>>, numAttack: nat, i: nat, j: nat, c: nat)
    requires |pools0| == 5 && ClassesOnly(combRand) && DrawShapes(combRand, normalParts, gss)
    requires i <= j <= |gss| && 1 <= c <= 4
    requires |AfterClients(pools0, combRand, normalParts[..i], gss[..i], numAttack)[c]| < numAttack
    ensures AfterClients(pools0, combRand, normalParts[..j], gss[..j], numAttack)[c]
         == AfterClients(pools0, combRand, normalParts[..i], gss[..i], numAttack)[c]
    decreases j
  {
    if j > i {
      ShortPoolReachesLater(pools0, combRand, normalParts, gss, numAttack, i, j - 1, c);
      var p := AfterClients(pools0, combRand, normalParts[..j - 1], gss[..j - 1], numAttack);
      assert normalParts[..j][..j - 1] == normalParts[..j - 1] && gss[..j][..j - 1] == gss[..j - 1];
      ShortPoolStays(p[0 := p[0] - normalParts[j - 1]], combRand[j - 1], gss[j - 1], numAttack, c);
    }
  }

  /** Once an attack pool is too small for `num_attack`, every later client
      whose combination names that class receives that same whole pool. */
  lemma ShortPoolSharedLater(pools0: seq<set<nat>>, combRand: seq<seq<nat>>, normalParts: seq<set<nat>>,
                             gss: seq<seq<set<nat>>>, numAttack: nat, i: nat, j: nat, t: nat)
    requires |pools0| == 5 && ClassesOnly(combRand) && DrawShapes(combRand, normalParts, gss)
    requires AllFair(pools0, combRand, normalParts, gss, numAttack)
    requires i <= j < |gss| && t < |combRand[j]|
    requires |AfterClients(pools0, combRand, normalParts[..i], gss[..i], numAttack)[combRand[j][t]]| < numAttack
    ensures gss[j][t] == AfterClients(pools0, combRand, normalParts[..i], gss[..i], numAttack)[combRand[j][t]]
  {
    var c := combRand[j][t];
    ShortPoolReachesLater(pools0, combRand, normalParts, gss, numAttack, i, j, c);
    var p := AfterClients(pools0, combRand, normalParts[..j], gss[..j], numAttack);
    var q := p[0 := p[0] - normalParts[j]];
    AllFairAt(pools0, combRand, normalParts, gss, numAttack, j);
    ClientDrawsFairAt(q, combRand[j], gss[j], numAttack, t);
    ShortPoolStays(q, combRand[j][..t], gss[j][..t], numAttack, c);
  }

  /** How many normal indices client i receives when every client takes
      `numNormal` from a pool of `size`: all of them while enough remain,
      then what is left, then none. */
  function NormalTaken(size: nat, numNormal: nat, i: nat): nat
  {
    var left := size - i * numNormal;
    if left <= 0 then 0 else if left < numNormal then left else numNormal
  }

  /** With the full normal pool and no more entries than clients, every
      client receives exactly `num_normal` normal indices. */
  lemma NormalSharesAreFull(numUsers: nat, entries: nat, i: nat)
    requires numUsers > 0 && entries <= numUsers && i < entries
    ensures NormalTaken(NormalPoolSize, NumNormal(numUsers), i) == NumNormal(numUsers)
  {
    var nn := NumNormal(numUsers);
    assert nn * numUsers <= NormalPoolSize;
    MulMonotone(i + 1, numUsers, nn);
    assert i * nn + nn == (i + 1) * nn;
  }

  lemma MulMonotone(a: nat, b: nat, c: nat)
    requires a <= b
    ensures a * c <= b * c
  {
  }

  /** Left of a pool of `size` after `i` clients took `numNormal` each. */
  function NormalLeft(size: nat, numNormal: nat, i: nat): nat
  {
    if size - i * numNormal <= 0 then 0 else size - i * numNormal
  }

  /** What the loop of `iid` has built for clients 0..i-1, and what is left
      of the pools: each client holds its normal share and its attack draws
      `gss`. */
  ghost predicate Dealt(pools0: seq<set<nat>>, combRand: seq<seq<nat>>, numUsers: nat, numNormal: nat, numAttack: nat,
                        i: nat, users: map<nat, seq<nat>>, pools: seq<set<nat>>, normalParts: seq<set<nat>>,
                        gss: seq<seq<set<nat>>>)
    requires |pools0| == 5 && i <= |combRand| && ClassesOnly(combRand)
  {
    && |pools| == 5 && |normalParts| == i && i <= numUsers
    && DrawShapes(combRand, normalParts, gss)
    && (forall j: nat :: j in users <==> j < numUsers)
    && (forall j: nat :: i <= j < numUsers ==> users[j] == [])
    && pools[0] <= pools0[0]
    && |pools[0]| == NormalLeft(|pools0[0]|, numNormal, i)
    && (forall c :: 1 <= c <= 4 ==> pools[c] <= pools0[c])
    && (forall j :: 0 <= j < i ==> Holds(pools0, combRand, numNormal, users, normalParts, gss, pools[0], j))
    && (forall j, k :: 0 <= j < k < i ==> normalParts[j] !! normalParts[k])
  }

  /** Client j holds exactly its normal share, a piece of the normal pool
      of the size `NormalTaken` gives and apart from `left`, and its attack
      draws, each from the pool of its class; with separate pools and
      distinct classes it holds no index twice. */
  ghost predicate Holds(pools0: seq<set<nat>>, combRand: seq<seq<nat>>, numNormal: nat, users: map<nat, seq<nat>>,
                        normalParts: seq<set<nat>>, gss: seq<seq<set<nat>>>, left: set<nat>, j: nat)
    requires |pools0| == 5 && ClassesOnly(combRand) && DrawShapes(combRand, normalParts, gss) && j < |gss|
  {
    && normalParts[j] <= pools0[0] && normalParts[j] !! left
    && |normalParts[j]| == NormalTaken(|pools0[0]|, numNormal, j)
    && j in users
    && Elems(users[j]) == normalParts[j] + Union(gss[j])
    && (forall t :: 0 <= t < |gss[j]| ==> gss[j][t] <= pools0[combRand[j][t]])
    && (Separate(pools0) && Increasing(combRand[j]) ==> Distinct(users[j]))
  }

  /** Serving client i leaves what the clients before it hold as it was. */
  lemma HoldsKept(pools0: seq<set<nat>>, combRand: seq<seq<nat>>, numNormal: nat, users: map<nat, seq<nat>>,
                  normalParts: seq<set<nat>>, gss: seq<seq<set<nat>>>, left: set<nat>, j: nat,
                  held: seq<nat>, normal: set<nat>, gs: seq<set<nat>>, left': set<nat>)
    requires |pools0| == 5 && ClassesOnly(combRand) && DrawShapes(combRand, normalParts, gss) && j < |gss|
    requires DrawShapes(combRand, normalParts + [normal], gss + [gs]) && left' <= left
    requires Holds(pools0, combRand, numNormal, users, normalParts, gss, left, j)
    ensures Holds(pools0, combRand, numNormal, users[|gss| := held], normalParts + [normal], gss + [gs], left', j)
  {
    assert (normalParts + [normal])[j] == normalParts[j] && (gss + [gs])[j] == gss[j];
  }

  /** The pools are exactly what the normal shares and the attack draws
      `gss` of the clients so far leave, and every draw was fair. */
  ghost predicate DrawsSoFar(pools0: seq<set<nat>>, combRand: seq<seq<nat>>, numAttack: nat,
                             normalParts: seq<set<nat>>, gss: seq<seq<set<nat>>>, pools: seq<set<nat>>)
    requires |pools0| == 5 && ClassesOnly(combRand)
  {
    && DrawShapes(combRand, normalParts, gss)
    && pools == AfterClients(pools0, combRand, normalParts, gss, numAttack)
    && AllFair(pools0, combRand, normalParts, gss, numAttack)
  }

  /** What serving one client with `classes` does: `normal` is its share
      of the normal pool, removed from it; `gs` are its fair draws from the
      attack pools, which leave them as `AfterClient` says; the client holds
      exactly its normal share and its draws. */
  ghost predicate ServedOne(pools0: seq<set<nat>>, classes: seq<nat>, numNormal: nat, numAttack: nat,
                            pools: seq<set<nat>>, held: seq<nat>, pools': seq<set<nat>>, normal: set<nat>,
                            gs: seq<set<nat>>)
    requires |pools| == 5 && |pools0| == 5 && AttackClasses(classes)
  {
    && normal <= pools[0] && |normal| == (if numNormal <= |pools[0]| then numNormal else |pools[0]|)
    && |gs| == |classes|
    && ClientDrawsFair(pools[0 := pools[0] - normal], classes, gs, numAttack)
    && pools' == AfterClient(pools[0 := pools[0] - normal], classes, gs, numAttack)
    && (forall c :: 1 <= c <= 4 ==> pools'[c] <= pools0[c])
    && (forall t :: 0 <= t < |gs| ==> gs[t] <= pools0[classes[t]])
    && Elems(held) == normal + Union(gs)
    && (Separate(pools0) && Increasing(classes) && pools[0] <= pools0[0] ==> Distinct(held))
  }

  /** One pass of the loop body of `iid` for a client of combination
      `classes`: its share of the normal pool, then its share of each attack
      class. */
  method ServeClient(pools: seq<set<nat>>, classes: seq<nat>, numNormal: nat, numAttack: nat,
                     ghost pools0: seq<set<nat>>)
    returns (held: seq<nat>, pools': seq<set<nat>>, normal: set<nat>)
    requires |pools| == 5 && |pools0| == 5 && AttackClasses(classes)
    requires forall c :: 1 <= c <= 4 ==> pools[c] <= pools0[c]
    ensures exists gs :: ServedOne(pools0, classes, numNormal, numAttack, pools, held, pools', normal, gs)
  {
    ghost var gs;
    normal := TakeSome(pools[0], if numNormal <= |pools[0]| then numNormal else |pools[0]|);
    held := SetToList(normal);
    pools' := pools[0 := pools[0] - normal];
    held, pools', gs := ServeAttacks(held, pools', classes, numAttack, pools0);
    assert ServedOne(pools0, classes, numNormal, numAttack, pools, held, pools', normal, gs);
  }

  /** The inner loop of `iid`: a fair draw from each attack class of
      `classes`, appended to what the client holds, with full shares
      removed from their pools. */
  method ServeAttacks(held: seq<nat>, pools: seq<set<nat>>, classes: seq<nat>, numAttack: nat,
                      ghost pools0: seq<set<nat>>)
    returns (held': seq<nat>, pools': seq<set<nat>>, ghost gs: seq<set<nat>>)
    requires |pools| == 5 && |pools0| == 5 && AttackClasses(classes)
    requires forall c :: 1 <= c <= 4 ==> pools[c] <= pools0[c]
    ensures |gs| == |classes| && ClientDrawsFair(pools, classes, gs, numAttack)
    ensures pools' == AfterClient(pools, classes, gs, numAttack)
    ensures forall c :: 1 <= c <= 4 ==> pools'[c] <= pools0[c]
    ensures forall t :: 0 <= t < |gs| ==> gs[t] <= pools0[classes[t]]
    ensures Elems(held') == Elems(held) + Union(gs)
    ensures Separate(pools0) && Increasing(classes) && Distinct(held) && Elems(held) <= pools0[0] ==> Distinct(held')
  {
    held', pools', gs := held, pools, [];
    for t := 0 to |classes|
      invariant Drawing(held, pools, classes, numAttack, pools0, t, held', pools', gs)
    {
      var cls := classes[t];
      var given, rest := TakeAttack(pools'[cls], numAttack);
      var list := SetToList(given);
      DrawingStep(held, pools, classes, numAttack, pools0, t, held', pools', gs, given, rest, list);
      held', pools', gs := held' + list, pools'[cls := rest], gs + [given];
    }
    assert classes[..|classes|] == classes;
  }

  /** What the inner loop of `iid` has done after the first t classes. */
  ghost predicate Drawing(held: seq<nat>, pools: seq<set<nat>>, classes: seq<nat>, numAttack: nat,
                          pools0: seq<set<nat>>, t: nat, held': seq<nat>, pools': seq<set<nat>>, gs: seq<set<nat>>)
    requires |pools| == 5 && |pools0| == 5 && AttackClasses(classes) && t <= |classes|
  {
    && |gs| == t && ClientDrawsFair(pools, classes[..t], gs, numAttack)
    && pools' == AfterClient(pools, classes[..t], gs, numAttack)
    && (forall c :: 1 <= c <= 4 ==> pools'[c] <= pools0[c])
    && (forall u :: 0 <= u < t ==> gs[u] <= pools0[classes[u]])
    && Elems(held') == Elems(held) + Union(gs)
    && NoRepeatsKept(held, classes, pools0, held')
  }

  /** With separate pools and distinct classes, a duplicate-free list of
      normal-pool indices stays duplicate-free as draws are appended. */
  predicate NoRepeatsKept(held: seq<nat>, classes: seq<nat>, pools0: seq<set<nat>>, held': seq<nat>)
    requires |pools0| == 5
  {
    Separate(pools0) && Increasing(classes) && Distinct(held) && Elems(held) <= pools0[0] ==> Distinct(held')
  }

  /** One pass of the inner loop keeps `Drawing`. */
  lemma DrawingStep(held: seq<nat>, pools: seq<set<nat>>, classes: seq<nat>, numAttack: nat,
                    pools0: seq<set<nat>>, t: nat, held': seq<nat>, pools': seq<set<nat>>, gs: seq<set<nat>>,
                    given: set<nat>, rest: set<nat>, list: seq<nat>)
    requires |pools| == 5 && |pools0| == 5 && AttackClasses(classes) && t < |classes|
    requires Drawing(held, pools, classes, numAttack, pools0, t, held', pools', gs)
    requires |pools'[classes[t]]| >= numAttack ==>
               given <= pools'[classes[t]] && |given| == numAttack && rest == pools'[classes[t]] - given
    requires |pools'[classes[t]]| < numAttack ==> given == pools'[classes[t]] && rest == pools'[classes[t]]
    requires Distinct(list) && Elems(list) == given
    ensures Drawing(held, pools, classes, numAttack, pools0, t + 1, held' + list,
                    pools'[classes[t] := rest], gs + [given])
  {
    var cls := classes[t];
    assert FairDraw(pools', cls, given, numAttack);
    DrawStep(pools, classes, gs, given, numAttack, t);
    assert pools'[cls := rest] == Drawn(pools', cls, given, numAttack);
    HeldStep(held, held', list, gs, given);
    DrawnDistinct(held, classes, pools0, t, held', gs, given, list);
    var gs' := gs + [given];
    forall u | 0 <= u < t + 1
      ensures gs'[u] <= pools0[classes[u]]
    {
      if u < t {
        assert gs'[u] == gs[u];
      }
    }
  }

  /** With separate pools and distinct classes, a draw from class t shares
      nothing with a normal share or with the draws of the classes before
      it. */
  lemma DrawApart(pools0: seq<set<nat>>, classes: seq<nat>, gs: seq<set<nat>>, t: nat, normal: set<nat>, given: set<nat>)
    requires |pools0| == 5 && Separate(pools0) && AttackClasses(classes) && Increasing(classes)
    requires t < |classes| && |gs| == t
    requires forall u :: 0 <= u < t ==> gs[u] <= pools0[classes[u]]
    requires normal <= pools0[0] && given <= pools0[classes[t]]
    ensures given !! normal + Union(gs)
  {
    assert pools0[0] !! pools0[classes[t]];
    forall u | 0 <= u < t
      ensures gs[u] !! given
    {
      assert pools0[classes[u]] !! pools0[classes[t]];
    }
    UnionApart(gs, given);
  }

  /** A set apart from every draw is apart from their union. */
  lemma {:induction false} UnionApart(gs: seq<set<nat>>, g: set<nat>)
    requires forall u :: 0 <= u < |gs| ==> gs[u] !! g
    ensures Union(gs) !! g
  {
    if |gs| > 0 {
      UnionApart(gs[..|gs| - 1], g);
    }
  }

  /** Appending a draw keeps a client's list duplicate-free when the pools
      are separate and the classes distinct. */
  lemma DrawnDistinct(held: seq<nat>, classes: seq<nat>, pools0: seq<set<nat>>, t: nat,
                      held': seq<nat>, gs: seq<set<nat>>, given: set<nat>, list: seq<nat>)
    requires |pools0| == 5 && AttackClasses(classes) && t < |classes| && |gs| == t
    requires forall u :: 0 <= u < t ==> gs[u] <= pools0[classes[u]]
    requires given <= pools0[classes[t]]
    requires Elems(held') == Elems(held) + Union(gs)
    requires NoRepeatsKept(held, classes, pools0, held')
    requires Distinct(list) && Elems(list) == given
    ensures NoRepeatsKept(held, classes, pools0, held' + list)
  {
    if Separate(pools0) && Increasing(classes) && Distinct(held) && Elems(held) <= pools0[0] {
      DrawApart(pools0, classes, gs, t, Elems(held), given);
      DistinctAppend(held', list);
    }
  }

  /** Two duplicate-free lists with no common element append to a
      duplicate-free list. */
  lemma DistinctAppend(a: seq<nat>, b: seq<nat>)
    requires Distinct(a) && Distinct(b) && Elems(a) !! Elems(b)
    ensures Distinct(a + b)
  {
    forall i, j | 0 <= i < j < |a + b|
      ensures (a + b)[i] != (a + b)[j]
    {
      if i < |a| <= j {
        assert (a + b)[i] in Elems(a) && (a + b)[j] == b[j - |a|] && b[j - |a|] in Elems(b);
      }
    }
  }

  /** Appending the list of a draw adds the draw to what a client holds. */
  lemma HeldStep(held: seq<nat>, held': seq<nat>, list: seq<nat>, gs: seq<set<nat>>, given: set<nat>)
    requires Elems(held') == Elems(held) + Union(gs) && Elems(list) == given
    ensures Elems(held' + list) == Elems(held) + Union(gs + [given])
  {
    ElemsAppend(held', list);
    assert (gs + [given])[..|gs|] == gs;
  }

  /** A fair draw at position t extends a client's fair draws by one. */
  lemma DrawStep(p: seq<set<nat>>, classes: seq<nat>, gs: seq<set<nat>>, g: set<nat>, numAttack: nat, t: nat)
    requires |p| == 5 && AttackClasses(classes) && t < |classes| && |gs| == t
    requires ClientDrawsFair(p, classes[..t], gs, numAttack)
    requires FairDraw(AfterClient(p, classes[..t], gs, numAttack), classes[t], g, numAttack)
    ensures ClientDrawsFair(p, classes[..t + 1], gs + [g], numAttack)
    ensures AfterClient(p, classes[..t + 1], gs + [g], numAttack)
         == Drawn(AfterClient(p, classes[..t], gs, numAttack), classes[t], g, numAttack)
  {
    assert classes[..t + 1][..t] == classes[..t];
    assert (gs + [g])[..t] == gs;
  }

  /** One pass of the loop of `iid`: client i is served and `Dealt`
      extends to it. */
  method DealOne(ghost pools0: seq<set<nat>>, combRand: seq<seq<nat>>, ghost numUsers: nat, numNormal: nat,
                 numAttack: nat, i: nat, users: map<nat, seq<nat>>, pools: seq<set<nat>>,
                 ghost normalParts: seq<set<nat>>, ghost gss: seq<seq<set<nat>>>)
    returns (users': map<nat, seq<nat>>, pools': seq<set<nat>>, ghost normalParts': seq<set<nat>>,
             ghost gss': seq<seq<set<nat>>>)
    requires |pools0| == 5 && i < |combRand| && ClassesOnly(combRand) && i in users
    requires Dealt(pools0, combRand, numUsers, numNormal, numAttack, i, users, pools, normalParts, gss)
    requires DrawsSoFar(pools0, combRand, numAttack, normalParts, gss, pools)
    ensures Dealt(pools0, combRand, numUsers, numNormal, numAttack, i + 1, users', pools', normalParts', gss')
    ensures DrawsSoFar(pools0, combRand, numAttack, normalParts', gss', pools')
  {
    var held, normal;
    held, pools', normal := ServeClient(pools, combRand[i], numNormal, numAttack, pools0);
    ghost var gs :| ServedOne(pools0, combRand[i], numNormal, numAttack, pools, held, pools', normal, gs);
    DealtStep(pools0, combRand, numUsers, numNormal, numAttack, i, users, pools, normalParts, gss,
              held, pools', normal, gs);
    ClientsSnoc(pools0, combRand, normalParts, gss, normal, gs, numAttack);
    users', normalParts', gss' := users[i := held], normalParts + [normal], gss + [gs];
  }

  /** Serving client i keeps `Dealt` for the clients 0..i. */
  lemma DealtStep(pools0: seq<set<nat>>, combRand: seq<seq<nat>>, numUsers: nat, numNormal: nat, numAttack: nat,
                  i: nat, users: map<nat, seq<nat>>, pools: seq<set<nat>>, normalParts: seq<set<nat>>,
                  gss: seq<seq<set<nat>>>, held: seq<nat>, pools': seq<set<nat>>, normal: set<nat>, gs: seq<set<nat>>)
    requires |pools0| == 5 && i < |combRand| && ClassesOnly(combRand) && i < numUsers
    requires Dealt(pools0, combRand, numUsers, numNormal, numAttack, i, users, pools, normalParts, gss)
    requires ServedOne(pools0, combRand[i], numNormal, numAttack, pools, held, pools', normal, gs)
    ensures Dealt(pools0, combRand, numUsers, numNormal, numAttack, i + 1, users[i := held], pools',
                  normalParts + [normal], gss + [gs])
  {
    var users': map<nat, seq<nat>> := users[i := held];
    var P := |pools0[0]|;
    NormalStep(P, numNormal, i);
    DiffCardinality(pools[0], normal);
    var parts := normalParts + [normal];
    var gss' := gss + [gs];
    assert pools'[0] == pools[0] - normal;
    assert DrawShapes(combRand, parts, gss');
    forall j | 0 <= j < i
      ensures Holds(pools0, combRand, numNormal, users', parts, gss', pools'[0], j)
    {
      HoldsKept(pools0, combRand, numNormal, users, normalParts, gss, pools[0], j, held, normal, gs, pools'[0]);
    }
    assert parts[i] == normal && gss'[i] == gs;
    assert Holds(pools0, combRand, numNormal, users', parts, gss', pools'[0], i);
    forall j | 0 <= j < i
      ensures normalParts[j] !! pools[0]
    {
      assert Holds(pools0, combRand, numNormal, users, normalParts, gss, pools[0], j);
    }
    PartsStayDisjoint(normalParts, normal, pools[0]);
    forall j: nat | i + 1 <= j < numUsers
      ensures users'[j] == []
    {
    }
  }

  /** A new share drawn from what the earlier shares left is disjoint from
      each of them. */
  lemma PartsStayDisjoint(parts: seq<set<nat>>, normal: set<nat>, left: set<nat>)
    requires forall j, k :: 0 <= j < k < |parts| ==> parts[j] !! parts[k]
    requires forall j :: 0 <= j < |parts| ==> parts[j] !! left
    requires normal <= left
    ensures forall j, k :: 0 <= j < k < |parts| + 1 ==> (parts + [normal])[j] !! (parts + [normal])[k]
  {
    forall j, k | 0 <= j < k < |parts| + 1
      ensures (parts + [normal])[j] !! (parts + [normal])[k]
    {
      if k == |parts| {
        assert parts[j] !! left;
      }
    }
  }

  /** Serving one more client extends `AfterClients` and `AllFair` by
      that client's normal share and draws. */
  lemma ClientsSnoc(pools0: seq<set<nat>>, combRand: seq<seq<nat>>, parts: seq<set<nat>>, gss: seq<seq<set<nat>>>,
                    normal: set<nat>, gs: seq<set<nat>>, numAttack: nat)
    requires |pools0| == 5 && ClassesOnly(combRand) && DrawShapes(combRand, parts, gss)
    requires |gss| < |combRand| && |gs| == |combRand[|gss|]|
    ensures DrawShapes(combRand, parts + [normal], gss + [gs])
    ensures var p := AfterClients(pools0, combRand, parts, gss, numAttack);
            && AfterClients(pools0, combRand, parts + [normal], gss + [gs], numAttack)
               == AfterClient(p[0 := p[0] - normal], combRand[|gss|], gs, numAttack)
            && (AllFair(pools0, combRand, parts + [normal], gss + [gs], numAttack) <==>
                  AllFair(pools0, combRand, parts, gss, numAttack)
                  && ClientDrawsFair(p[0 := p[0] - normal], combRand[|gss|], gs, numAttack))
  {
    assert (parts + [normal])[..|gss|] == parts;
    assert (gss + [gs])[..|gss|] == gss;
  }

  /** The normal pool after client i is the pool before it less its share. */
  lemma NormalStep(size: nat, numNormal: nat, i: nat)
    ensures var before := NormalLeft(size, numNormal, i);
            && NormalTaken(size, numNormal, i) == (if numNormal <= before then numNormal else before)
            && NormalLeft(size, numNormal, i + 1) == before - NormalTaken(size, numNormal, i)
  {
    assert (i + 1) * numNormal == i * numNormal + numNormal;
  }

  /** Before the loop every client holds nothing and the pools are whole. */
  lemma DealtStart(pools0: seq<set<nat>>, combRand: seq<seq<nat>>, numUsers: nat, numNormal: nat, numAttack: nat,
                   users: map<nat, seq<nat>>, pools: seq<set<nat>>)
    requires |pools0| == 5 && ClassesOnly(combRand) && pools == pools0
    requires forall j: nat :: j in users <==> j < numUsers
    requires forall j: nat :: j in users ==> users[j] == []
    ensures Dealt(pools0, combRand, numUsers, numNormal, numAttack, 0, users, pools, [], [])
    ensures DrawsSoFar(pools0, combRand, numAttack, [], [], pools)
  {
  }

  /** `Dealt` for every combination entry, read off client by client. */
  lemma DealtAll(pools0: seq<set<nat>>, combRand: seq<seq<nat>>, numUsers: nat, numNormal: nat, numAttack: nat,
                 users: map<nat, seq<nat>>, pools: seq<set<nat>>, normalParts: seq<set<nat>>, gss: seq<seq<set<nat>>>)
    requires |pools0| == 5 && ClassesOnly(combRand)
    requires Dealt(pools0, combRand, numUsers, numNormal, numAttack, |combRand|, users, pools, normalParts, gss)
    requires DrawsSoFar(pools0, combRand, numAttack, normalParts, gss, pools)
    ensures |combRand| <= numUsers
    ensures exists normalParts, gss :: Distributed(pools0, combRand, numUsers, numNormal, numAttack, users, normalParts, gss)
    ensures Separate(pools0) && (forall e :: 0 <= e < |combRand| ==> Increasing(combRand[e])) ==>
              forall j: nat :: j in users ==> Distinct(users[j])
  {
    forall j | 0 <= j < |combRand|
      ensures Holds(pools0, combRand, numNormal, users, normalParts, gss, {}, j)
    {
      assert Holds(pools0, combRand, numNormal, users, normalParts, gss, pools[0], j);
    }
    if Separate(pools0) && (forall e :: 0 <= e < |combRand| ==> Increasing(combRand[e])) {
      forall j: nat | j in users
        ensures Distinct(users[j])
      {
        if j < |combRand| {
          assert Holds(pools0, combRand, numNormal, users, normalParts, gss, pools[0], j);
        }
      }
    }
    assert Distributed(pools0, combRand, numUsers, numNormal, numAttack, users, normalParts, gss);
  }

  /** What `iid` hands out: every client has an entry, clients past the
      combination list have none of the data, the normal shares are
      disjoint pieces of the normal pool of the sizes `NormalTaken` gives,
      and each client holds exactly its normal share and its fair draws
      `gss[i]` from the attack classes of its combination, each taken from
      the pools as the earlier clients left them; with separate pools no
      client holds an index twice. */
  ghost predicate Distributed(pools0: seq<set<nat>>, combRand: seq<seq<nat>>, numUsers: nat, numNormal: nat,
                              numAttack: nat, users: map<nat, seq<nat>>, normalParts: seq<set<nat>>,
                              gss: seq<seq<set<nat>>>)
    requires |pools0| == 5 && ClassesOnly(combRand)
  {
    && (forall i: nat :: i in users <==> i < numUsers)
    && (forall i: nat :: |combRand| <= i < numUsers ==> users[i] == [])
    && |normalParts| == |combRand| && DrawShapes(combRand, normalParts, gss)
    && AllFair(pools0, combRand, normalParts, gss, numAttack)
    && (forall i :: 0 <= i < |combRand| ==> Holds(pools0, combRand, numNormal, users, normalParts, gss, {}, i))
    && (forall i, j :: 0 <= i < j < |combRand| ==> normalParts[i] !! normalParts[j])
  }

  /** `iid` over the pools cut from the label-sorted indices. None where the
      loop reaches a combination entry with no client (`dict_users[i]` raises
      KeyError); otherwise the clients' data as `Distributed` describes, with
      `num_attack` per attack draw. */
  method Iid(numUsers: nat, degree: nat, sortedIdxs: seq<nat>)
    returns (r: Option<map<nat, seq<nat>>>)
    requires numUsers > 0 && 1 <= degree <= 4
    requires |sortedIdxs| == 2 * NormalPoolSize
    ensures var combRand := CombRand(numUsers, degree);
            && (r.None? <==> |combRand| > numUsers)
            && (r.Some? ==> exists normalParts, gss ::
                  Distributed(InitialPools(sortedIdxs), combRand, numUsers, NumNormal(numUsers),
                              NumAttack(numUsers, degree), r.value, normalParts, gss))
    ensures r.Some? && Distinct(sortedIdxs) ==> forall i: nat :: i in r.value ==> Distinct(r.value[i])
  {
    var numNormal := NumNormal(numUsers);
    var numAttack := NumAttack(numUsers, degree);
    var users: map<nat, seq<nat>> := map i: nat | i < numUsers :: NoData(i);
    var pools := InitialPools(sortedIdxs);
    ghost var pools0 := pools;
    var combRand := BuildCombRand(numUsers, degree);
    ghost var normalParts: seq<set<nat>> := [];
    ghost var gss: seq<seq<set<nat>>> := [];
    DealtStart(pools0, combRand, numUsers, numNormal, numAttack, users, pools);
    for i := 0 to |combRand|
      invariant Dealt(pools0, combRand, numUsers, numNormal, numAttack, i, users, pools, normalParts, gss)
      invariant DrawsSoFar(pools0, combRand, numAttack, normalParts, gss, pools)
    {
      if i !in users {
        return None;
      }
      users, pools, normalParts, gss := DealOne(pools0, combRand, numUsers, numNormal, numAttack, i, users, pools, normalParts, gss);
    }
    DealtAll(pools0, combRand, numUsers, numNormal, numAttack, users, pools, normalParts, gss);
    if Distinct(sortedIdxs) {
      InitialPoolsOfPermutation(sortedIdxs);
      assert Separate(pools0);
    }
    return Some(users);
  }
}
