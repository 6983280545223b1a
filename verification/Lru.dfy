/** The abstract pool: tenants from most to least recently used. */
module Lru {

  datatype Tenant = Tenant(id: string)

  function Without(list: seq<Tenant>, t: Tenant): (r: seq<Tenant>)
    ensures forall x :: x in r <==> x in list && x != t
    ensures |r| <= |list|
  {
    if list == [] then []
    else if list[0] == t then Without(list[1..], t)
    else [list[0]] + Without(list[1..], t)
  }

  function WithoutLast(list: seq<Tenant>): seq<Tenant> {
    if list == [] then [] else list[..|list| - 1]
  }

  /** The pool once `t` is known to need an entry: full pools lose their tail. */
  function Room(list: seq<Tenant>, max: nat): seq<Tenant> {
    if |list| >= max then WithoutLast(list) else list
  }

  function Used(list: seq<Tenant>, max: nat, t: Tenant): seq<Tenant> {
    [t] + if t in list then Without(list, t) else Room(list, max)
  }

  /** A call for `t`, served from its entry or by opening a connection, or neither: then its entry
      goes if there was one (it was dead), and otherwise room has been made in vain. */
  function Tried(list: seq<Tenant>, max: nat, t: Tenant, served: bool): seq<Tenant> {
    if served then Used(list, max, t) else if t in list then Without(list, t) else Room(list, max)
  }

  predicate Distinct(list: seq<Tenant>) {
    list == [] || (list[0] !in list[1..] && Distinct(list[1..]))
  }

  lemma {:induction false} WithoutDistinct(list: seq<Tenant>, t: Tenant)
    requires Distinct(list)
    ensures Distinct(Without(list, t))
    ensures |Without(list, t)| == if t in list then |list| - 1 else |list|
    ensures t !in list ==> Without(list, t) == list
  {
    if list != [] {
      WithoutDistinct(list[1..], t);
    }
  }

  lemma {:induction false} WithoutAppend(a: seq<Tenant>, b: seq<Tenant>, t: Tenant)
    ensures Without(a + b, t) == Without(a, t) + Without(b, t)
  {
    if a == [] {
      assert a + b == b;
    } else {
      assert (a + b)[1..] == a[1..] + b;
      WithoutAppend(a[1..], b, t);
    }
  }

  lemma {:induction false} WithoutAbsent(a: seq<Tenant>, t: Tenant)
    requires t !in a
    ensures Without(a, t) == a
  {
    if a != [] {
      WithoutAbsent(a[1..], t);
    }
  }

  lemma {:induction false} WithoutLastDistinct(list: seq<Tenant>)
    requires Distinct(list) && list != []
    ensures Distinct(WithoutLast(list)) && list[|list| - 1] !in WithoutLast(list)
    ensures forall x :: x in list <==> x in WithoutLast(list) || x == list[|list| - 1]
  {
    assert list == WithoutLast(list) + [list[|list| - 1]];
    if |list| > 1 {
      assert WithoutLast(list)[1..] == WithoutLast(list[1..]);
      assert list[1..][|list| - 2] == list[|list| - 1];
      WithoutLastDistinct(list[1..]);
      assert list == [list[0]] + list[1..];
    }
  }

  lemma {:induction false} WithoutLastIsWithout(list: seq<Tenant>)
    requires Distinct(list) && list != []
    ensures WithoutLast(list) == Without(list, list[|list| - 1])
  {
    WithoutLastDistinct(list);
    assert list == WithoutLast(list) + [list[|list| - 1]];
    WithoutAppend(WithoutLast(list), [list[|list| - 1]], list[|list| - 1]);
    WithoutAbsent(WithoutLast(list), list[|list| - 1]);
  }

  lemma {:induction false} UsedBound(list: seq<Tenant>, max: nat, t: Tenant)
    requires Distinct(list) && |list| <= (if max == 0 then 1 else max)
    ensures Distinct(Used(list, max, t)) && |Used(list, max, t)| <= (if max == 0 then 1 else max)
  {
    WithoutDistinct(list, t);
    if list != [] {
      WithoutLastDistinct(list);
    }
  }

  // ---------------------------------------------------------------- inclusion

  datatype Call = Get(tenant: Tenant) | Release(tenant: Tenant)

  function After(list: seq<Tenant>, max: nat, call: Call): seq<Tenant> {
    match call
    case Get(t) => Used(list, max, t)
    case Release(t) => Without(list, t)
  }

  function Run(list: seq<Tenant>, max: nat, calls: seq<Call>): seq<Tenant>
    decreases |calls|
  {
    if calls == [] then list else Run(After(list, max, calls[0]), max, calls[1..])
  }

  /** One call keeps the smaller pool's list at the front of the larger pool's. */
  lemma {:induction false} AfterKeepsPrefix(small: seq<Tenant>, large: seq<Tenant>, n: nat, m: nat, call: Call)
    requires n <= m && small <= large
    ensures After(small, n, call) <= After(large, m, call)
  {
    var t, rest := call.tenant, large[|small|..];
    assert large == small + rest;
    WithoutAppend(small, rest, t);
    if t !in small {
      WithoutAbsent(small, t);
    }
  }

  lemma {:induction false} RunKeepsPrefix(small: seq<Tenant>, large: seq<Tenant>, n: nat, m: nat, calls: seq<Call>)
    requires n <= m && small <= large
    ensures Run(small, n, calls) <= Run(large, m, calls)
    decreases |calls|
  {
    if calls != [] {
      AfterKeepsPrefix(small, large, n, m, calls[0]);
      RunKeepsPrefix(After(small, n, calls[0]), After(large, m, calls[0]), n, m, calls[1..]);
    }
  }

  /** Running the same calls, a larger pool holds every tenant a smaller one holds, in the same
      order of recency; so whatever the smaller pool can reuse, the larger one can too. */
  lemma {:induction false} Inclusion(n: nat, m: nat, calls: seq<Call>)
    requires n <= m
    ensures Run([], n, calls) <= Run([], m, calls)
    ensures forall t :: t in Run([], n, calls) ==> t in Run([], m, calls)
  {
    RunKeepsPrefix([], [], n, m, calls);
  }

  lemma {:induction false} RunBound(list: seq<Tenant>, max: nat, calls: seq<Call>)
    requires max >= 1 && Distinct(list) && |list| <= max
    ensures Distinct(Run(list, max, calls)) && |Run(list, max, calls)| <= max
    decreases |calls|
  {
    if calls != [] {
      UsedBound(list, max, calls[0].tenant);
      WithoutDistinct(list, calls[0].tenant);
      RunBound(After(list, max, calls[0]), max, calls[1..]);
    }
  }

  // ---------------------------------------------------------------- inclusion when opens fail

  /** One call to both pools, and whether each serves it. */
  datatype Pair = Both(tenant: Tenant, bySmall: bool, byLarge: bool) | ReleaseBoth(tenant: Tenant)

  datatype Side = Small | Large

  function PairAfter(list: seq<Tenant>, max: nat, p: Pair, side: Side): seq<Tenant> {
    match p
    case Both(t, bySmall, byLarge) => Tried(list, max, t, if side == Small then bySmall else byLarge)
    case ReleaseBoth(t) => Without(list, t)
  }

  function PairRun(list: seq<Tenant>, max: nat, ps: seq<Pair>, side: Side): seq<Tenant>
    decreases |ps|
  {
    if ps == [] then list else PairRun(PairAfter(list, max, ps[0], side), max, ps[1..], side)
  }

  /** What the small pool can serve the large one can. */
  predicate LargeServes(ps: seq<Pair>) {
    forall i | 0 <= i < |ps| && ps[i].Both? :: ps[i].bySmall ==> ps[i].byLarge
  }

  function FailsAlone(p: Pair): nat { if p.Both? && !p.bySmall && p.byLarge then 1 else 0 }

  /** The calls that fail in the small pool alone. */
  function Failures(ps: seq<Pair>): nat {
    if ps == [] then 0 else FailsAlone(ps[0]) + Failures(ps[1..])
  }

  /** The tenants used since `x` was. */
  function Ahead(list: seq<Tenant>, x: Tenant): set<Tenant> {
    if list == [] || list[0] == x then {} else {list[0]} + Ahead(list[1..], x)
  }

  lemma {:induction false} AheadWithout(list: seq<Tenant>, t: Tenant, x: Tenant)
    requires x != t
    ensures Ahead(Without(list, t), x) == Ahead(list, x) - {t}
  {
    if list != [] {
      AheadWithout(list[1..], t, x);
    }
  }

  lemma {:induction false} AheadInList(list: seq<Tenant>, x: Tenant)
    requires Distinct(list) && x in list
    ensures x !in Ahead(list, x) && (forall y | y in Ahead(list, x) :: y in list) && |Ahead(list, x)| < |list|
    ensures x == list[|list| - 1] <==> |Ahead(list, x)| == |list| - 1
  {
    if list[0] != x {
      AheadInList(list[1..], x);
      assert list[0] !in Ahead(list[1..], x);
      assert list[1..][|list| - 2] == list[|list| - 1];
    } else if |list| > 1 {
      assert list[|list| - 1] in list[1..];
    }
  }

  lemma {:induction false} AheadWithoutLast(list: seq<Tenant>, x: Tenant)
    requires Distinct(list) && x in WithoutLast(list)
    ensures Ahead(WithoutLast(list), x) == Ahead(list, x)
  {
    if list[0] != x {
      assert WithoutLast(list)[1..] == WithoutLast(list[1..]);
      AheadWithoutLast(list[1..], x);
    }
  }

  lemma {:induction false} AheadRoom(list: seq<Tenant>, max: nat, x: Tenant)
    requires Distinct(list) && x in Room(list, max)
    ensures Distinct(Room(list, max)) && x in list && Ahead(Room(list, max), x) == Ahead(list, x)
  {
    if |list| >= max {
      WithoutLastDistinct(list);
      AheadWithoutLast(list, x);
    }
  }

  /** How far `x` lags in the large pool: the tenants ahead of it there and not in the small one. */
  function Lag(small: seq<Tenant>, large: seq<Tenant>, x: Tenant): set<Tenant> {
    Ahead(large, x) - Ahead(small, x)
  }

  ghost predicate Lagging(small: seq<Tenant>, large: seq<Tenant>, n: nat, m: nat, g: nat) {
    && Distinct(small) && Distinct(large) && |small| <= n && |large| <= m
    && forall x | x in small :: x in large && |Lag(small, large, x)| <= g
  }

  lemma {:induction false} Shrinks(a: set<Tenant>, b: set<Tenant>)
    requires a <= b
    ensures |a| <= |b|
  {
    assert b == a + (b - a);
  }

  lemma {:induction false} TriedDistinct(list: seq<Tenant>, max: nat, t: Tenant, served: bool)
    requires max >= 1 && Distinct(list) && |list| <= max
    ensures Distinct(Tried(list, max, t, served)) && |Tried(list, max, t, served)| <= max
    ensures forall x :: x in Tried(list, max, t, served) ==> x in list || (served && x == t)
  {
    WithoutDistinct(list, t);
    if list != [] {
      WithoutLastDistinct(list);
    }
    if served {
      UsedBound(list, max, t);
    }
  }

  lemma {:induction false} AheadRest(list: seq<Tenant>, max: nat, t: Tenant, x: Tenant)
    requires Distinct(list) && x != t && x in (if t in list then Without(list, t) else Room(list, max))
    ensures x in list
    ensures Ahead(if t in list then Without(list, t) else Room(list, max), x) == Ahead(list, x) - {t}
  {
    AheadWithout(list, t, x);
    if t !in list {
      AheadRoom(list, max, x);
      AheadInList(list, x);
    }
  }

  lemma {:induction false} AheadCons(t: Tenant, rest: seq<Tenant>, x: Tenant)
    requires x != t
    ensures Ahead([t] + rest, x) == {t} + Ahead(rest, x)
  {
    assert ([t] + rest)[1..] == rest;
  }

  /** The tenants still ahead of `x` after a call for another. */
  lemma {:induction false} AheadTried(list: seq<Tenant>, max: nat, t: Tenant, served: bool, x: Tenant)
    requires Distinct(list) && x != t && x in Tried(list, max, t, served)
    ensures x in list
    ensures Ahead(Tried(list, max, t, served), x) == Ahead(list, x) - {t} + (if served then {t} else {})
  {
    AheadRest(list, max, t, x);
    AheadCons(t, if t in list then Without(list, t) else Room(list, max), x);
  }

  /** A tenant that makes room in the large pool is the last of the small one too, or not in it. */
  lemma {:induction false} TailsAgree(small: seq<Tenant>, large: seq<Tenant>, n: nat, m: nat, g: nat, x: Tenant)
    requires Lagging(small, large, n, m, g) && g <= m - n && |large| == m && x in small && x == large[|large| - 1]
    ensures |small| == n && x == small[|small| - 1]
  {
    AheadInList(large, x);
    AheadInList(small, x);
    assert Ahead(large, x) <= Lag(small, large, x) + Ahead(small, x);
    Shrinks(Ahead(large, x), Lag(small, large, x) + Ahead(small, x));
  }

  lemma {:induction false} StaysIncluded(small: seq<Tenant>, large: seq<Tenant>, n: nat, m: nat, g: nat, p: Pair, x: Tenant)
    requires 1 <= n <= m && Lagging(small, large, n, m, g) && g <= m - n && LargeServes([p])
    requires x in PairAfter(small, n, p, Small)
    ensures x in PairAfter(large, m, p, Large)
  {
    assert [p][0] == p;
    if p.Both? && x != p.tenant {
      TriedDistinct(small, n, p.tenant, p.bySmall);
      if p.tenant !in large && |large| >= m {
        WithoutLastDistinct(large);
        if x == large[|large| - 1] {
          TailsAgree(small, large, n, m, g, x);
          WithoutLastDistinct(small);
          assert false;
        }
      }
    } else if p.Both? {
      TriedDistinct(small, n, p.tenant, p.bySmall);
      FailedIsGone(small, n, p.tenant);
    }
  }

  lemma {:induction false} FailedIsGone(list: seq<Tenant>, max: nat, t: Tenant)
    requires Distinct(list)
    ensures t !in Tried(list, max, t, false)
  {
    if list != [] {
      WithoutLastDistinct(list);
    }
  }

  lemma {:induction false} LagGrows(small: seq<Tenant>, large: seq<Tenant>, n: nat, m: nat, g: nat, p: Pair, x: Tenant)
    requires 1 <= n <= m && Lagging(small, large, n, m, g) && g <= m - n && LargeServes([p])
    requires x in PairAfter(small, n, p, Small) && x in PairAfter(large, m, p, Large)
    ensures |Lag(PairAfter(small, n, p, Small), PairAfter(large, m, p, Large), x)| <= g + FailsAlone(p)
  {
    assert [p][0] == p;
    var lag, lag' := Lag(small, large, x), Lag(PairAfter(small, n, p, Small), PairAfter(large, m, p, Large), x);
    if p.ReleaseBoth? {
      AheadWithout(small, p.tenant, x);
      AheadWithout(large, p.tenant, x);
      assert lag' <= lag;
      Shrinks(lag', lag);
    } else if x == p.tenant {
      FailedIsGone(small, n, x);
      FailedIsGone(large, m, x);
      assert Ahead(PairAfter(large, m, p, Large), x) == {};
    } else {
      AheadTried(small, n, p.tenant, p.bySmall, x);
      AheadTried(large, m, p.tenant, p.byLarge, x);
      if FailsAlone(p) == 1 {
        assert lag' <= lag + {p.tenant};
        Shrinks(lag', lag + {p.tenant});
      } else {
        assert lag' <= lag;
        Shrinks(lag', lag);
      }
    }
  }

  lemma {:induction false} StepLagging(small: seq<Tenant>, large: seq<Tenant>, n: nat, m: nat, g: nat, p: Pair)
    requires 1 <= n <= m && Lagging(small, large, n, m, g) && g <= m - n && LargeServes([p])
    ensures Lagging(PairAfter(small, n, p, Small), PairAfter(large, m, p, Large), n, m, g + FailsAlone(p))
  {
    WithoutDistinct(small, p.tenant);
    WithoutDistinct(large, p.tenant);
    if p.Both? {
      TriedDistinct(small, n, p.tenant, p.bySmall);
      TriedDistinct(large, m, p.tenant, p.byLarge);
    }
    forall x | x in PairAfter(small, n, p, Small)
      ensures x in PairAfter(large, m, p, Large)
      ensures |Lag(PairAfter(small, n, p, Small), PairAfter(large, m, p, Large), x)| <= g + FailsAlone(p)
    {
      StaysIncluded(small, large, n, m, g, p, x);
      LagGrows(small, large, n, m, g, p, x);
    }
  }

  lemma {:induction false} RunLagging(small: seq<Tenant>, large: seq<Tenant>, n: nat, m: nat, g: nat, ps: seq<Pair>)
    requires 1 <= n <= m && Lagging(small, large, n, m, g) && LargeServes(ps) && g + Failures(ps) <= m - n
    ensures Lagging(PairRun(small, n, ps, Small), PairRun(large, m, ps, Large), n, m, g + Failures(ps))
    decreases |ps|
  {
    if ps != [] {
      assert LargeServes([ps[0]]) && LargeServes(ps[1..]) by {
        assert [ps[0]][0] == ps[0] && forall i | 0 <= i < |ps| - 1 :: ps[1..][i] == ps[i + 1];
      }
      StepLagging(small, large, n, m, g, ps[0]);
      RunLagging(PairAfter(small, n, ps[0], Small), PairAfter(large, m, ps[0], Large), n, m, g + FailsAlone(ps[0]), ps[1..]);
    }
  }

  ghost predicate Included(n: nat, m: nat, ps: seq<Pair>) {
    forall x | x in PairRun([], n, ps, Small) :: x in PairRun([], m, ps, Large)
  }

  /** A pool of one holds the latest tenant of the larger pool or none. */
  lemma {:induction false} OneIsFront(small: seq<Tenant>, large: seq<Tenant>, m: nat, ps: seq<Pair>)
    requires m >= 1 && LargeServes(ps) && (small == [] || (large != [] && small == [large[0]]))
    ensures forall x | x in PairRun(small, 1, ps, Small) :: x in PairRun(large, m, ps, Large)
    decreases |ps|
  {
    if ps != [] {
      assert LargeServes(ps[1..]) by {
        assert forall i | 0 <= i < |ps| - 1 :: ps[1..][i] == ps[i + 1];
      }
      var t := ps[0].tenant;
      assert small != [] ==> small[1..] == [] && Without(small, t) == if small[0] == t then [] else small;
      assert large != [] && large[0] != t ==> Without(large, t) == [large[0]] + Without(large[1..], t);
      OneIsFront(PairAfter(small, 1, ps[0], Small), PairAfter(large, m, ps[0], Large), m, ps[1..]);
    }
  }

  // The runs that lose a tenant.

  function Unary(i: nat): (r: string)
    ensures |r| == i + 1
  {
    if i == 0 then "x" else "x" + Unary(i - 1)
  }

  function Nth(i: nat): Tenant { Tenant(Unary(i)) }

  function Numbered(lo: nat, hi: nat): seq<Tenant> {
    seq(if lo < hi then hi - lo else 0, k requires 0 <= k => Nth(lo + k))
  }

  lemma {:induction false} NumberedMembers(lo: nat, hi: nat, i: nat)
    ensures Nth(i) in Numbered(lo, hi) <==> lo <= i < hi
  {
    var list := Numbered(lo, hi);
    assert |Unary(i)| == i + 1;
    forall k | 0 <= k < |list| ensures list[k] == Nth(i) <==> lo + k == i {
      assert list[k] == Nth(lo + k) && |Unary(lo + k)| == lo + k + 1 && |Unary(i)| == i + 1;
    }
    assert lo <= i < hi ==> list[i - lo] == Nth(i);
  }

  lemma {:induction false} NumberedDistinct(lo: nat, hi: nat)
    ensures Distinct(Numbered(lo, hi))
    decreases hi - lo
  {
    if lo < hi {
      NumberedDistinct(lo + 1, hi);
      NumberedMembers(lo + 1, hi, lo);
      assert Numbered(lo, hi)[1..] == Numbered(lo + 1, hi);
    }
  }

  function Least(a: nat, b: nat): nat { if a <= b then a else b }

  function Fill(lo: nat, hi: nat): seq<Pair>
    decreases hi - lo
  {
    if lo >= hi then [] else Fill(lo + 1, hi) + [Both(Nth(lo), true, true)]
  }

  lemma {:induction false} PairRunSnoc(list: seq<Tenant>, max: nat, ps: seq<Pair>, p: Pair, side: Side)
    ensures PairRun(list, max, ps + [p], side) == PairAfter(PairRun(list, max, ps, side), max, p, side)
    decreases |ps|
  {
    if ps == [] {
      assert [] + [p] == [p] && [p][1..] == [];
    } else {
      assert (ps + [p])[1..] == ps[1..] + [p];
      PairRunSnoc(PairAfter(list, max, ps[0], side), max, ps[1..], p, side);
    }
  }

  /** Using tenants hi-1, ..., lo in this order leaves the last ones used. */
  lemma {:induction false} Filled(max: nat, lo: nat, hi: nat, side: Side)
    requires max >= 1 && lo <= hi
    ensures PairRun([], max, Fill(lo, hi), side) == Numbered(lo, Least(lo + max, hi))
    decreases hi - lo
  {
    if lo < hi {
      Filled(max, lo + 1, hi, side);
      PairRunSnoc([], max, Fill(lo + 1, hi), Both(Nth(lo), true, true), side);
      NumberedMembers(lo + 1, Least(lo + 1 + max, hi), lo);
      assert Numbered(lo + 1, lo + 1 + max)[..max - 1] == Numbered(lo + 1, lo + max);
      assert [Nth(lo)] + Numbered(lo + 1, Least(lo + max, hi)) == Numbered(lo, Least(lo + max, hi));
    }
  }

  /** Then the small pool alone fails tenants m-1, ..., m-j. */
  function Lose(m: nat, j: nat): seq<Pair>
    requires j <= m
  {
    if j == 0 then Fill(0, m) else Lose(m, j - 1) + [Both(Nth(m - j), false, true)]
  }

  /** A hit on the last entry turns the list by one. */
  lemma {:induction false} UsedLast(rest: seq<Tenant>, t: Tenant, max: nat)
    requires t !in rest
    ensures Used(rest + [t], max, t) == [t] + rest
  {
    WithoutAppend(rest, [t], t);
    WithoutAbsent(rest, t);
    assert [t][1..] == [];
  }

  lemma {:induction false} Turned(m: nat, i: nat)
    requires i < m
    ensures Numbered(i + 1, m) + Numbered(0, i + 1) == Numbered(i + 1, m) + Numbered(0, i) + [Nth(i)]
    ensures [Nth(i)] + (Numbered(i + 1, m) + Numbered(0, i)) == Numbered(i, m) + Numbered(0, i)
    ensures Nth(i) !in Numbered(i + 1, m) + Numbered(0, i)
  {
    NumberedMembers(i + 1, m, i);
    NumberedMembers(0, i, i);
  }

  lemma {:induction false} LoseLarge(m: nat, j: nat)
    requires m >= 1 && j <= m
    ensures PairRun([], m, Lose(m, j), Large) == Numbered(m - j, m) + Numbered(0, m - j)
  {
    if j == 0 {
      Filled(m, 0, m, Large);
      assert Numbered(m, m) + Numbered(0, m) == Numbered(0, m);
    } else {
      LoseLarge(m, j - 1);
      PairRunSnoc([], m, Lose(m, j - 1), Both(Nth(m - j), false, true), Large);
      Turned(m, m - j);
      UsedLast(Numbered(m - j + 1, m) + Numbered(0, m - j), Nth(m - j), m);
    }
  }

  lemma {:induction false} LoseSmall(n: nat, m: nat, j: nat)
    requires 2 <= n <= m && j <= m - n + 1
    ensures PairRun([], n, Lose(m, j), Small) == Numbered(0, if j == 0 then n else n - 1)
  {
    if j == 0 {
      Filled(n, 0, m, Small);
    } else {
      LoseSmall(n, m, j - 1);
      PairRunSnoc([], n, Lose(m, j - 1), Both(Nth(m - j), false, true), Small);
      if j == 1 {
        LosesLast(n, m - 1);
      } else {
        LosesNone(n, m - j);
      }
    }
  }

  lemma {:induction false} LosesNone(n: nat, i: nat)
    requires 1 <= n <= i + 1
    ensures Tried(Numbered(0, n - 1), n, Nth(i), false) == Numbered(0, n - 1)
  {
    NumberedMembers(0, n - 1, i);
  }

  /** The first failure costs the full small pool its last entry, whether it is for that one or not. */
  lemma {:induction false} LosesLast(n: nat, i: nat)
    requires 1 <= n <= i + 1
    ensures Tried(Numbered(0, n), n, Nth(i), false) == Numbered(0, n - 1)
  {
    NumberedMembers(0, n, i);
    NumberedDistinct(0, n);
    assert WithoutLast(Numbered(0, n)) == Numbered(0, n - 1);
    if i == n - 1 {
      WithoutLastIsWithout(Numbered(0, n));
    }
  }

  lemma {:induction false} LoseFails(m: nat, j: nat)
    requires j <= m
    ensures LargeServes(Lose(m, j)) && Failures(Lose(m, j)) == j
  {
    if j == 0 {
      FillServes(0, m);
    } else {
      LoseFails(m, j - 1);
      FailuresSnoc(Lose(m, j - 1), Both(Nth(m - j), false, true));
    }
  }

  lemma {:induction false} FillServes(lo: nat, hi: nat)
    ensures LargeServes(Fill(lo, hi)) && Failures(Fill(lo, hi)) == 0
    decreases hi - lo
  {
    if lo < hi {
      FillServes(lo + 1, hi);
      FailuresSnoc(Fill(lo + 1, hi), Both(Nth(lo), true, true));
    }
  }

  lemma {:induction false} FailuresSnoc(ps: seq<Pair>, p: Pair)
    ensures Failures(ps + [p]) == Failures(ps) + FailsAlone(p)
  {
    if ps == [] {
      assert [] + [p] == [p] && [p][1..] == [];
    } else {
      assert (ps + [p])[1..] == ps[1..] + [p];
      FailuresSnoc(ps[1..], p);
    }
  }

  lemma {:induction false} NewcomerTips(n: nat, m: nat)
    requires 2 <= n <= m
    ensures Nth(n - 2) in Used(Numbered(0, n - 1), n, Nth(m))
    ensures Nth(n - 2) !in Used(Numbered(n - 1, m) + Numbered(0, n - 1), m, Nth(m))
  {
    var large := Numbered(n - 1, m) + Numbered(0, n - 1);
    NumberedMembers(0, n - 1, m);
    NumberedMembers(n - 1, m, m);
    assert WithoutLast(large) == Numbered(n - 1, m) + Numbered(0, n - 2);
    NumberedMembers(0, n - 1, n - 2);
    NumberedMembers(n - 1, m, n - 2);
    NumberedMembers(0, n - 2, n - 2);
    NumberedMembers(m, m + 1, n - 2);
    assert Numbered(m, m + 1) == [Nth(m)];
  }

  /** One more failure than the difference in size loses a tenant. */
  lemma {:induction false} OneTooMany(n: nat, m: nat) returns (ps: seq<Pair>)
    requires 2 <= n <= m
    ensures LargeServes(ps) && Failures(ps) == m - n + 1 && !Included(n, m, ps)
  {
    var j := m - n + 1;
    var last := Both(Nth(m), true, true);
    LoseSmall(n, m, j);
    LoseLarge(m, j);
    LoseFails(m, j);
    FailuresSnoc(Lose(m, j), last);
    ps := Lose(m, j) + [last];
    PairRunSnoc([], n, Lose(m, j), last, Small);
    PairRunSnoc([], m, Lose(m, j), last, Large);
    NewcomerTips(n, m);
  }

  /** Opens that fail in the smaller pool alone: whatever the calls, the larger pool holds every tenant
      the smaller one holds, with up to `f` such failures, if and only if `f` is at most the difference
      in size (or the smaller pool is a pool of one). */
  lemma {:induction false} InclusionDespiteFailuresIff(n: nat, m: nat, f: nat)
    requires 1 <= n <= m
    ensures (forall ps | LargeServes(ps) && Failures(ps) <= f :: Included(n, m, ps)) <==> n == 1 || f <= m - n
  {
    if n == 1 {
      forall ps | LargeServes(ps) ensures Included(n, m, ps) { OneIsFront([], [], m, ps); }
    } else if f <= m - n {
      forall ps | LargeServes(ps) && Failures(ps) <= f ensures Included(n, m, ps) { RunLagging([], [], n, m, 0, ps); }
    } else {
      var ps := OneTooMany(n, m);
    }
  }

  lemma {:induction false} PairRunDistinct(list: seq<Tenant>, max: nat, ps: seq<Pair>, side: Side)
    requires max >= 1 && Distinct(list) && |list| <= max
    ensures Distinct(PairRun(list, max, ps, side))
    decreases |ps|
  {
    if ps != [] {
      WithoutDistinct(list, ps[0].tenant);
      var served := ps[0].Both? && if side == Small then ps[0].bySmall else ps[0].byLarge;
      TriedDistinct(list, max, ps[0].tenant, served);
      PairRunDistinct(PairAfter(list, max, ps[0], side), max, ps[1..], side);
    }
  }

  /** A call that fails in the larger pool alone breaks inclusion at once. */
  lemma {:induction false} FailsInLargeAlone(n: nat, m: nat, ps: seq<Pair>, t: Tenant)
    requires m >= 1
    ensures !Included(n, m, ps + [Both(t, true, false)])
  {
    PairRunSnoc([], n, ps, Both(t, true, false), Small);
    PairRunSnoc([], m, ps, Both(t, true, false), Large);
    PairRunDistinct([], m, ps, Large);
    FailedIsGone(PairRun([], m, ps, Large), m, t);
    assert t in PairRun([], n, ps + [Both(t, true, false)], Small);
  }
}
