/** The entries of the tenant connection pool: an insertion-ordered map whose entries carry the time
    of their last use, what each request makes of it, and how it compares with the recency list. */
module PoolModel {
  import opened Lru
  import opened Optional

  datatype Entry<C> = Entry(tenant: Tenant, connection: C, lastUsed: int)

  /** A request handled with no other in between. For `getConnection`: whether the entry's connection
      is ready, the connection `_openConnection` returns (none if it throws), and the two clock
      readings. For `release`: whether closing succeeds. */
  datatype Request<C> =
    | Fetch(tenant: Tenant, alive: bool, conn: Option<C>, tTouch: int, tInsert: int)
    | Free(tenant: Tenant, closes: bool)

  function Tenants<C>(pool: seq<Entry<C>>): (r: seq<Tenant>)
    ensures |r| == |pool|
  {
    if pool == [] then [] else [pool[0].tenant] + Tenants(pool[1..])
  }

  /** The position of a tenant's entry, -1 if it has none. */
  function IndexOf<C>(pool: seq<Entry<C>>, t: Tenant): (k: int)
    ensures -1 <= k < |pool|
    ensures k >= 0 ==> pool[k].tenant == t
    ensures k >= 0 <==> t in Tenants(pool)
  {
    if pool == [] then -1
    else if pool[0].tenant == t then 0
    else
      var k := IndexOf(pool[1..], t);
      if k == -1 then -1 else k + 1
  }

  function Remove<C>(pool: seq<Entry<C>>, k: nat): (r: seq<Entry<C>>)
    requires k < |pool|
    ensures |r| == |pool| - 1
  {
    pool[..k] + pool[k + 1..]
  }

  /** Setting an entry's lastUsed leaves its position. */
  function Touched<C>(pool: seq<Entry<C>>, k: nat, now: int): (r: seq<Entry<C>>)
    requires k < |pool|
    ensures |r| == |pool|
  {
    pool[k := pool[k].(lastUsed := now)]
  }

  /** The entry the scan of `_evictLRU` ends with: the first one with the least lastUsed. */
  predicate IsOldest<C>(pool: seq<Entry<C>>, k: nat) {
    && k < |pool|
    && (forall i | 0 <= i < |pool| :: pool[k].lastUsed <= pool[i].lastUsed)
    && (forall i | 0 <= i < k :: pool[k].lastUsed < pool[i].lastUsed)
  }

  function OldestOf<C>(pool: seq<Entry<C>>): (k: nat)
    requires pool != []
    ensures IsOldest(pool, k)
  {
    if |pool| == 1 then 0
    else
      var k, last := OldestOf(pool[..|pool| - 1]), |pool| - 1;
      assert forall i | 0 <= i < last :: pool[..last][i] == pool[i];
      if pool[last].lastUsed < pool[k].lastUsed then last else k
  }

  lemma {:induction false} OldestIsUnique<C>(pool: seq<Entry<C>>, k: nat)
    requires pool != [] && IsOldest(pool, k)
    ensures k == OldestOf(pool)
  {
    var i := OldestOf(pool);
    assert IsOldest(pool, i);
  }

  /** `_evictLRU`; an empty id would count as no entry found. */
  function Evicted<C>(pool: seq<Entry<C>>): seq<Entry<C>> {
    if pool == [] || pool[OldestOf(pool)].tenant.id == "" then pool else Remove(pool, OldestOf(pool))
  }

  function Vacated<C>(pool: seq<Entry<C>>, max: nat): seq<Entry<C>> {
    if |pool| >= max then Evicted(pool) else pool
  }

  function Freed<C>(pool: seq<Entry<C>>, t: Tenant): seq<Entry<C>> {
    var k := IndexOf(pool, t);
    if k >= 0 then Remove(pool, k) else pool
  }

  function After<C>(pool: seq<Entry<C>>, max: nat, q: Request<C>): seq<Entry<C>> {
    match q
    case Fetch(t, alive, conn, tTouch, tInsert) =>
      var k := IndexOf(pool, t);
      if k >= 0 && alive then Touched(pool, k, tTouch)
      else
        var rest := Vacated(Freed(pool, t), max);
        if conn.Some? then rest + [Entry(t, conn.value, tInsert)] else rest
    case Free(t, closes) => if closes then Freed(pool, t) else pool
  }

  // ---------------------------------------------------------------- tenants of the entries

  lemma {:induction false} TenantAt<C>(pool: seq<Entry<C>>, i: nat)
    requires i < |pool|
    ensures Tenants(pool)[i] == pool[i].tenant
  {
    if i > 0 {
      TenantAt(pool[1..], i - 1);
    }
  }

  lemma {:induction false} TenantsOf<C>(pool: seq<Entry<C>>)
    ensures forall e | e in pool :: e.tenant in Tenants(pool)
  {
    forall e | e in pool ensures e.tenant in Tenants(pool) {
      var i :| 0 <= i < |pool| && pool[i] == e;
      TenantAt(pool, i);
    }
  }

  lemma {:induction false} TenantsJoin<C>(a: seq<Entry<C>>, b: seq<Entry<C>>)
    ensures Tenants(a + b) == Tenants(a) + Tenants(b)
  {
    if a == [] {
      assert a + b == b;
    } else {
      assert (a + b)[1..] == a[1..] + b;
      TenantsJoin(a[1..], b);
    }
  }

  lemma {:induction false} DistinctAt(list: seq<Tenant>, i: nat, j: nat)
    requires Distinct(list) && i < j < |list|
    ensures list[i] != list[j]
  {
    if i == 0 {
      assert list[j] == list[1..][j - 1];
    } else {
      DistinctAt(list[1..], i - 1, j - 1);
    }
  }

  lemma {:induction false} DifferentTenants<C>(pool: seq<Entry<C>>, i: nat, j: nat)
    requires Distinct(Tenants(pool)) && i < |pool| && j < |pool| && i != j
    ensures pool[i].tenant != pool[j].tenant
  {
    TenantAt(pool, i);
    TenantAt(pool, j);
    if i < j {
      DistinctAt(Tenants(pool), i, j);
    } else {
      DistinctAt(Tenants(pool), j, i);
    }
  }

  lemma {:induction false} DistinctSplit(a: seq<Tenant>, t: Tenant, b: seq<Tenant>)
    requires Distinct(a + [t] + b)
    ensures t !in a && t !in b
  {
    var list := a + [t] + b;
    forall i | 0 <= i < |a| ensures a[i] != t { DistinctAt(list, i, |a|); }
    forall j | 0 <= j < |b| ensures b[j] != t { DistinctAt(list, |a|, |a| + 1 + j); }
  }

  lemma {:induction false} TenantsAround<C>(a: seq<Entry<C>>, e: Entry<C>, b: seq<Entry<C>>)
    ensures Tenants(a + [e] + b) == Tenants(a) + [e.tenant] + Tenants(b)
  {
    TenantsJoin(a + [e], b);
    TenantsJoin(a, [e]);
    assert [e][1..] == [];
  }

  lemma {:induction false} WithoutMiddle(a: seq<Tenant>, t: Tenant, b: seq<Tenant>)
    requires t !in a && t !in b
    ensures Without(a + [t] + b, t) == a + b
  {
    WithoutAppend(a + [t], b, t);
    WithoutAppend(a, [t], t);
    WithoutAbsent(a, t);
    WithoutAbsent(b, t);
    assert [t][1..] == [];
  }

  lemma {:induction false} RemoveTenants<C>(pool: seq<Entry<C>>, k: nat)
    requires Distinct(Tenants(pool)) && k < |pool|
    ensures Tenants(Remove(pool, k)) == Without(Tenants(pool), pool[k].tenant)
  {
    var a, e, b := pool[..k], pool[k], pool[k + 1..];
    assert pool == a + [e] + b;
    TenantsAround(a, e, b);
    TenantsJoin(a, b);
    DistinctSplit(Tenants(a), e.tenant, Tenants(b));
    WithoutMiddle(Tenants(a), e.tenant, Tenants(b));
  }

  lemma {:induction false} RemovedEntries<C>(pool: seq<Entry<C>>, k: nat)
    requires Distinct(Tenants(pool)) && k < |pool|
    ensures forall e :: e in Remove(pool, k) <==> e in pool && e.tenant != pool[k].tenant
  {
    forall i | 0 <= i < |pool| && i != k ensures pool[i].tenant != pool[k].tenant {
      DifferentTenants(pool, i, k);
    }
    var rest := Remove(pool, k);
    forall e | e in pool && e.tenant != pool[k].tenant ensures e in rest {
      var i :| 0 <= i < |pool| && pool[i] == e;
      assert rest[if i < k then i else i - 1] == e;
    }
  }

  lemma {:induction false} TouchedTenants<C>(pool: seq<Entry<C>>, k: nat, now: int)
    requires k < |pool|
    ensures Tenants(Touched(pool, k, now)) == Tenants(pool)
  {
    var pool' := Touched(pool, k, now);
    forall i | 0 <= i < |pool| ensures Tenants(pool')[i] == Tenants(pool)[i] {
      TenantAt(pool, i);
      TenantAt(pool', i);
    }
  }

  lemma {:induction false} TouchedEntries<C>(pool: seq<Entry<C>>, k: nat, now: int)
    requires Distinct(Tenants(pool)) && k < |pool|
    ensures forall e | e in Touched(pool, k, now) ::
              e == pool[k].(lastUsed := now) || (e in pool && e.tenant != pool[k].tenant)
  {
    var pool' := Touched(pool, k, now);
    forall i | 0 <= i < |pool| && i != k ensures pool'[i] == pool[i] && pool[i].tenant != pool[k].tenant {
      DifferentTenants(pool, i, k);
    }
  }

  lemma {:induction false} AppendTenants<C>(pool: seq<Entry<C>>, e: Entry<C>)
    ensures Tenants(pool + [e]) == Tenants(pool) + [e.tenant]
  {
    TenantsJoin(pool, [e]);
    assert [e][1..] == [];
  }

  lemma {:induction false} AppendDistinct(list: seq<Tenant>, t: Tenant)
    requires Distinct(list) && t !in list
    ensures Distinct(list + [t])
  {
    if list != [] {
      assert (list + [t])[1..] == list[1..] + [t];
      AppendDistinct(list[1..], t);
    }
  }

  // ---------------------------------------------------------------- against the recency list

  /** `a` was used last no earlier than `b`. */
  ghost predicate NotBefore<C>(pool: seq<Entry<C>>, a: Tenant, b: Tenant) {
    forall e, f | e in pool && f in pool && e.tenant == a && f.tenant == b :: e.lastUsed >= f.lastUsed
  }

  ghost predicate Descending<C>(pool: seq<Entry<C>>, list: seq<Tenant>) {
    list == [] || ((forall b | b in list[1..] :: NotBefore(pool, list[0], b)) && Descending(pool, list[1..]))
  }

  ghost predicate Covers<C>(pool: seq<Entry<C>>, list: seq<Tenant>) {
    |list| == |pool| && forall t :: t in Tenants(pool) <==> t in list
  }

  /** `list` names the tenants of the pool from most to least recently used. */
  ghost predicate Ranked<C>(pool: seq<Entry<C>>, list: seq<Tenant>) {
    Distinct(Tenants(pool)) && Covers(pool, list) && Distinct(list) && Descending(pool, list)
  }

  lemma {:induction false} DescendingWithout<C>(pool: seq<Entry<C>>, list: seq<Tenant>, t: Tenant)
    requires Descending(pool, list)
    ensures Descending(pool, Without(list, t))
  {
    if list != [] {
      DescendingWithout(pool, list[1..], t);
    }
  }

  /** Changing only entries of tenants outside `list` keeps its order. */
  lemma {:induction false} DescendingElsewhere<C>(pool: seq<Entry<C>>, pool': seq<Entry<C>>, list: seq<Tenant>)
    requires Descending(pool, list)
    requires forall e | e in pool' && e.tenant in list :: e in pool
    ensures Descending(pool', list)
  {
    if list != [] {
      DescendingElsewhere(pool, pool', list[1..]);
    }
  }

  /** The tail of the recency list has the least lastUsed. */
  lemma {:induction false} TailIsLeast<C>(pool: seq<Entry<C>>, list: seq<Tenant>, i: nat, k: nat)
    requires Distinct(Tenants(pool)) && Descending(pool, list) && list != []
    requires i < |pool| && pool[i].tenant in list && k < |pool| && pool[k].tenant == list[|list| - 1]
    ensures pool[k].lastUsed <= pool[i].lastUsed
  {
    assert pool[i] in pool && pool[k] in pool;
    if i != k {
      DifferentTenants(pool, i, k);
      if pool[i].tenant == list[0] {
        assert list[|list| - 1] in list[1..];
        assert NotBefore(pool, list[0], list[|list| - 1]);
      } else {
        TailIsLeast(pool, list[1..], i, k);
      }
    }
  }

  /** Every entry inserted before that of the least recently used tenant was touched later. */
  predicate TailStandsOut<C>(pool: seq<Entry<C>>, list: seq<Tenant>) {
    list != [] ==>
      var k := IndexOf(pool, list[|list| - 1]);
      forall i | 0 <= i < k :: pool[i].lastUsed > pool[k].lastUsed
  }

  lemma {:induction false} RankedPlaces<C>(pool: seq<Entry<C>>, list: seq<Tenant>)
    requires Ranked(pool, list) && pool != []
    ensures list != [] && IndexOf(pool, list[|list| - 1]) >= 0
    ensures forall i | 0 <= i < |pool| :: pool[i].tenant in list
  {
    TenantsOf(pool);
    assert list[|list| - 1] in list;
    assert forall i | 0 <= i < |pool| :: pool[i] in pool;
  }

  /** Eviction takes the least recently used tenant if and only if no entry inserted before it was
      touched in the same millisecond. */
  lemma {:induction false} VictimIsTailIff<C>(pool: seq<Entry<C>>, list: seq<Tenant>)
    requires Ranked(pool, list) && pool != []
    ensures pool[OldestOf(pool)].tenant == list[|list| - 1] <==> TailStandsOut(pool, list)
  {
    RankedPlaces(pool, list);
    var i, k := IndexOf(pool, list[|list| - 1]), OldestOf(pool);
    TailIsLeast(pool, list, k, i);
    assert pool[i].lastUsed == pool[k].lastUsed;
    if k != i {
      DifferentTenants(pool, k, i);
    }
  }

  lemma {:induction false} RemoveRanked<C>(pool: seq<Entry<C>>, list: seq<Tenant>, k: nat)
    requires Ranked(pool, list) && k < |pool|
    ensures Ranked(Remove(pool, k), Without(list, pool[k].tenant))
  {
    var t := pool[k].tenant;
    RankedPlaces(pool, list);
    RemoveTenants(pool, k);
    RemovedEntries(pool, k);
    WithoutDistinct(Tenants(pool), t);
    WithoutDistinct(list, t);
    DescendingWithout(pool, list, t);
    DescendingElsewhere(pool, Remove(pool, k), Without(list, t));
  }

  lemma {:induction false} TouchRanked<C>(pool: seq<Entry<C>>, list: seq<Tenant>, k: nat, now: int)
    requires Ranked(pool, list) && k < |pool| && forall e | e in pool :: e.lastUsed <= now
    ensures Ranked(Touched(pool, k, now), [pool[k].tenant] + Without(list, pool[k].tenant))
  {
    var t, pool' := pool[k].tenant, Touched(pool, k, now);
    var rest := Without(list, t);
    RankedPlaces(pool, list);
    TouchedTenants(pool, k, now);
    TouchedEntries(pool, k, now);
    WithoutDistinct(list, t);
    DescendingWithout(pool, list, t);
    DescendingElsewhere(pool, pool', rest);
    assert ([t] + rest)[1..] == rest;
    forall b | b in rest ensures NotBefore(pool', t, b) {
    }
  }

  lemma {:induction false} InsertRanked<C>(pool: seq<Entry<C>>, list: seq<Tenant>, e: Entry<C>)
    requires Ranked(pool, list) && e.tenant !in list
    requires forall f | f in pool :: f.lastUsed <= e.lastUsed
    ensures Ranked(pool + [e], [e.tenant] + list)
  {
    var pool' := pool + [e];
    TenantsOf(pool);
    AppendTenants(pool, e);
    AppendDistinct(Tenants(pool), e.tenant);
    DescendingElsewhere(pool, pool', list);
    assert ([e.tenant] + list)[1..] == list;
    forall b | b in list ensures NotBefore(pool', e.tenant, b) {
    }
  }

  // ---------------------------------------------------------------- one request

  /** The clock has not gone back, and ids are not empty. */
  ghost predicate Timely<C>(pool: seq<Entry<C>>, q: Request<C>) {
    && q.tenant.id != "" && (forall e | e in pool :: e.tenant.id != "")
    && (q.Fetch? ==> q.tTouch <= q.tInsert && forall e | e in pool :: e.lastUsed <= q.tTouch)
  }

  predicate IsServed<C>(list: seq<Tenant>, q: Request<C>)
    requires q.Fetch?
  {
    (q.tenant in list && q.alive) || q.conn.Some?
  }

  /** What the request makes of the recency list. */
  function Listed<C>(list: seq<Tenant>, max: nat, q: Request<C>): seq<Tenant> {
    match q
    case Fetch(t, _, _, _, _) => Tried(list, max, t, IsServed(list, q))
    case Free(t, closes) => if closes then Without(list, t) else list
  }

  /** The request evicts while an entry inserted before the least recently used one shares its
      millisecond. */
  predicate Ambiguous<C>(pool: seq<Entry<C>>, list: seq<Tenant>, max: nat, q: Request<C>) {
    q.Fetch? && q.tenant !in list && |pool| >= max && !TailStandsOut(pool, list)
  }

  lemma {:induction false} VacatedRanked<C>(pool: seq<Entry<C>>, list: seq<Tenant>, max: nat)
    requires Ranked(pool, list) && max >= 1 && |pool| <= max && forall e | e in pool :: e.tenant.id != ""
    requires |pool| < max || TailStandsOut(pool, list)
    ensures Ranked(Vacated(pool, max), Room(list, max)) && |Vacated(pool, max)| < max
    ensures forall e | e in Vacated(pool, max) :: e in pool
  {
    if |pool| >= max {
      var k := OldestOf(pool);
      assert pool[k] in pool;
      VictimIsTailIff(pool, list);
      WithoutLastIsWithout(list);
      RemoveRanked(pool, list, k);
    }
  }

  lemma {:induction false} FreedRanked<C>(pool: seq<Entry<C>>, list: seq<Tenant>, t: Tenant)
    requires Ranked(pool, list)
    ensures Ranked(Freed(pool, t), Without(list, t)) && (forall e | e in Freed(pool, t) :: e in pool)
    ensures |Freed(pool, t)| == if t in list then |pool| - 1 else |pool|
  {
    var k := IndexOf(pool, t);
    if k >= 0 {
      RemoveRanked(pool, list, k);
    } else {
      WithoutAbsent(list, t);
    }
  }

  /** The entries stay ranked by what the request makes of the list, unless it is ambiguous. */
  lemma {:induction false} AfterRanked<C>(pool: seq<Entry<C>>, list: seq<Tenant>, max: nat, q: Request<C>)
    requires Ranked(pool, list) && max >= 1 && |pool| <= max && Timely(pool, q) && !Ambiguous(pool, list, max, q)
    ensures Ranked(After(pool, max, q), Listed(list, max, q)) && |After(pool, max, q)| <= max
  {
    FreedRanked(pool, list, q.tenant);
    var k := IndexOf(pool, q.tenant);
    if q.Fetch? {
      if k >= 0 && q.alive {
        TouchRanked(pool, list, k, q.tTouch);
      } else {
        var rest, left := Freed(pool, q.tenant), Without(list, q.tenant);
        if q.tenant !in list {
          WithoutAbsent(list, q.tenant);
        }
        VacatedRanked(rest, left, max);
        if q.conn.Some? {
          assert q.tenant !in Room(left, max);
          InsertRanked(Vacated(rest, max), Room(left, max), Entry(q.tenant, q.conn.value, q.tInsert));
        }
      }
    }
  }

  lemma {:induction false} AmbiguousLosesTail<C>(pool: seq<Entry<C>>, list: seq<Tenant>, max: nat, q: Request<C>)
    requires Ranked(pool, list) && max >= 1 && |pool| <= max && Timely(pool, q) && Ambiguous(pool, list, max, q)
    ensures !Ranked(After(pool, max, q), Listed(list, max, q))
  {
    RankedPlaces(pool, list);
    var k := OldestOf(pool);
    var victim := pool[k].tenant;
    assert pool[k] in pool;
    VictimIsTailIff(pool, list);
    RemoveTenants(pool, k);
    WithoutLastDistinct(list);
    var rest := Vacated(pool, max);
    assert victim !in Tenants(rest) && victim in WithoutLast(list);
    if q.conn.Some? {
      AppendTenants(rest, Entry(q.tenant, q.conn.value, q.tInsert));
    }
    assert victim in Listed(list, max, q) && victim !in Tenants(After(pool, max, q));
  }

  /** One request does to the pool what it does to the recency list, exactly when it is not ambiguous. */
  lemma {:induction false} FollowsListIff<C>(pool: seq<Entry<C>>, list: seq<Tenant>, max: nat, q: Request<C>)
    requires Ranked(pool, list) && max >= 1 && |pool| <= max && Timely(pool, q)
    ensures Ranked(After(pool, max, q), Listed(list, max, q)) <==> !Ambiguous(pool, list, max, q)
  {
    if Ambiguous(pool, list, max, q) {
      AmbiguousLosesTail(pool, list, max, q);
    } else {
      AfterRanked(pool, list, max, q);
    }
  }
}
