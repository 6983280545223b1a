/** Runs of the connection pool's entries: when they follow the recency list, when a larger pool holds
    all that a smaller one holds, and how far concurrent opens can overfill a pool. */
module PoolRuns {
  import opened Lru
  import opened Optional
  import opened PoolModel

  // ---------------------------------------------------------------- following the recency list

  /** Requests one after the other, with non-empty ids and a clock that does not go back. */
  predicate Legal<C>(clock: int, qs: seq<Request<C>>)
    decreases |qs|
  {
    qs == [] ||
    (qs[0].tenant.id != "" && (qs[0].Fetch? ==> clock <= qs[0].tTouch <= qs[0].tInsert)
     && Legal(if qs[0].Fetch? then qs[0].tInsert else clock, qs[1..]))
  }

  /** No two readings are equal. */
  predicate StrictlyTimed<C>(clock: int, qs: seq<Request<C>>)
    decreases |qs|
  {
    qs == [] ||
    ((qs[0].Fetch? ==> clock < qs[0].tTouch < qs[0].tInsert)
     && StrictlyTimed(if qs[0].Fetch? then qs[0].tInsert else clock, qs[1..]))
  }

  function PoolAfter<C>(pool: seq<Entry<C>>, max: nat, qs: seq<Request<C>>): seq<Entry<C>>
    decreases |qs|
  {
    if qs == [] then pool else PoolAfter(PoolModel.After(pool, max, qs[0]), max, qs[1..])
  }

  function ListAfter<C>(list: seq<Tenant>, max: nat, qs: seq<Request<C>>): seq<Tenant>
    decreases |qs|
  {
    if qs == [] then list else ListAfter(Listed(list, max, qs[0]), max, qs[1..])
  }

  ghost predicate AlwaysRanked<C>(pool: seq<Entry<C>>, list: seq<Tenant>, max: nat, qs: seq<Request<C>>)
    decreases |qs|
  {
    Ranked(pool, list) &&
    (qs == [] || AlwaysRanked(PoolModel.After(pool, max, qs[0]), Listed(list, max, qs[0]), max, qs[1..]))
  }

  predicate NeverAmbiguous<C>(pool: seq<Entry<C>>, list: seq<Tenant>, max: nat, qs: seq<Request<C>>)
    decreases |qs|
  {
    qs == [] ||
    (!Ambiguous(pool, list, max, qs[0])
     && NeverAmbiguous(PoolModel.After(pool, max, qs[0]), Listed(list, max, qs[0]), max, qs[1..]))
  }

  /** Ids are not empty and no entry was touched after `clock`. */
  ghost predicate UpTo<C>(pool: seq<Entry<C>>, clock: int) {
    forall e | e in pool :: e.tenant.id != "" && e.lastUsed <= clock
  }

  function ClockAfter<C>(clock: int, q: Request<C>): int { if q.Fetch? then q.tInsert else clock }

  lemma {:induction false} RemoveUpTo<C>(pool: seq<Entry<C>>, k: nat, clock: int)
    requires UpTo(pool, clock) && k < |pool|
    ensures UpTo(Remove(pool, k), clock)
  {
  }

  lemma {:induction false} VacatedUpTo<C>(pool: seq<Entry<C>>, max: nat, clock: int)
    requires UpTo(pool, clock)
    ensures UpTo(Vacated(pool, max), clock)
  {
    if pool != [] {
      RemoveUpTo(pool, OldestOf(pool), clock);
    }
  }

  lemma {:induction false} AfterUpTo<C>(pool: seq<Entry<C>>, max: nat, clock: int, q: Request<C>)
    requires UpTo(pool, clock) && q.tenant.id != "" && (q.Fetch? ==> clock <= q.tTouch <= q.tInsert)
    ensures UpTo(PoolModel.After(pool, max, q), ClockAfter(clock, q))
  {
    var k := IndexOf(pool, q.tenant);
    if k >= 0 {
      RemoveUpTo(pool, k, clock);
      assert pool[k] in pool;
    }
    VacatedUpTo(Freed(pool, q.tenant), max, clock);
  }

  lemma {:induction false} FollowsListFrom<C>(pool: seq<Entry<C>>, list: seq<Tenant>, max: nat, clock: int,
                                                  qs: seq<Request<C>>)
    requires Ranked(pool, list) && max >= 1 && |pool| <= max && UpTo(pool, clock) && Legal(clock, qs)
    ensures AlwaysRanked(pool, list, max, qs) <==> NeverAmbiguous(pool, list, max, qs)
    ensures NeverAmbiguous(pool, list, max, qs) ==>
              Ranked(PoolAfter(pool, max, qs), ListAfter(list, max, qs)) && |PoolAfter(pool, max, qs)| <= max
    decreases |qs|
  {
    if qs != [] {
      assert Timely(pool, qs[0]);
      FollowsListIff(pool, list, max, qs[0]);
      if !Ambiguous(pool, list, max, qs[0]) {
        AfterRanked(pool, list, max, qs[0]);
        AfterUpTo(pool, max, clock, qs[0]);
        FollowsListFrom(PoolModel.After(pool, max, qs[0]), Listed(list, max, qs[0]), max,
                        ClockAfter(clock, qs[0]), qs[1..]);
      }
    }
  }

  /** Over a whole run of requests, dying connections and failing opens included, the pool holds what
      the recency list holds, in its order, if and only if no eviction is ambiguous. */
  lemma {:induction false} FollowsListIffNeverAmbiguous<C>(max: nat, qs: seq<Request<C>>)
    requires max >= 1 && Legal(0, qs)
    ensures AlwaysRanked([], [], max, qs) <==> NeverAmbiguous([], [], max, qs)
  {
    FollowsListFrom([], [], max, 0, qs);
  }

  // ---------------------------------------------------------------- size

  lemma {:induction false} AfterSize<C>(pool: seq<Entry<C>>, max: nat, q: Request<C>)
    requires max >= 1 && |pool| <= max && q.tenant.id != "" && forall e | e in pool :: e.tenant.id != ""
    ensures |PoolModel.After(pool, max, q)| <= max
  {
    var rest := Freed(pool, q.tenant);
    if |rest| >= max {
      assert rest[OldestOf(rest)] in rest;
    }
  }

  lemma {:induction false} SizeFrom<C>(pool: seq<Entry<C>>, max: nat, clock: int, qs: seq<Request<C>>)
    requires max >= 1 && |pool| <= max && UpTo(pool, clock) && Legal(clock, qs)
    ensures |PoolAfter(pool, max, qs)| <= max
    decreases |qs|
  {
    if qs != [] {
      AfterSize(pool, max, qs[0]);
      AfterUpTo(pool, max, clock, qs[0]);
      SizeFrom(PoolModel.After(pool, max, qs[0]), max, ClockAfter(clock, qs[0]), qs[1..]);
    }
  }

  /** Requests one at a time never overfill the pool, equal readings or not. */
  lemma {:induction false} NeverOverfull<C>(max: nat, qs: seq<Request<C>>)
    requires max >= 1 && Legal(0, qs)
    ensures |PoolAfter<C>([], max, qs)| <= max
  {
    SizeFrom([], max, 0, qs);
  }

  /** The ids must not be empty: an entry of the empty id with the least reading cannot be evicted, and
      each further tenant that misses exceeds the size. */
  lemma {:induction false} EmptyIdOverfills<C>(pool: seq<Entry<C>>, max: nat, q: Request<C>)
    requires |pool| >= max && pool != [] && pool[OldestOf(pool)].tenant.id == ""
    requires q.Fetch? && q.tenant !in Tenants(pool) && q.conn.Some?
    ensures |PoolModel.After(pool, max, q)| == |pool| + 1
  {
  }

  // ---------------------------------------------------------------- strictly increasing readings

  ghost predicate Strict<C>(pool: seq<Entry<C>>) {
    forall i, j | 0 <= i < j < |pool| :: pool[i].lastUsed != pool[j].lastUsed
  }

  lemma {:induction false} StrictStandsOut<C>(pool: seq<Entry<C>>, list: seq<Tenant>)
    requires Ranked(pool, list) && Strict(pool)
    ensures TailStandsOut(pool, list)
  {
    if list != [] {
      RankedPlaces(pool, list);
      var k := IndexOf(pool, list[|list| - 1]);
      forall i | 0 <= i < k ensures pool[i].lastUsed > pool[k].lastUsed {
        TailIsLeast(pool, list, i, k);
      }
    }
  }

  lemma {:induction false} RemoveStrict<C>(pool: seq<Entry<C>>, k: nat)
    requires Strict(pool) && k < |pool|
    ensures Strict(Remove(pool, k))
  {
    assert forall i | 0 <= i < |pool| - 1 :: Remove(pool, k)[i] == pool[if i < k then i else i + 1];
  }

  lemma {:induction false} VacatedStrict<C>(pool: seq<Entry<C>>, max: nat, clock: int)
    requires Strict(pool) && UpTo(pool, clock)
    ensures Strict(Vacated(pool, max)) && UpTo(Vacated(pool, max), clock)
  {
    if pool != [] {
      RemoveStrict(pool, OldestOf(pool));
      RemoveUpTo(pool, OldestOf(pool), clock);
    }
  }

  lemma {:induction false} AppendStrict<C>(pool: seq<Entry<C>>, clock: int, e: Entry<C>)
    requires Strict(pool) && UpTo(pool, clock) && clock < e.lastUsed
    ensures Strict(pool + [e])
  {
    assert forall i | 0 <= i < |pool| :: pool[i] in pool;
  }

  lemma {:induction false} TouchStrict<C>(pool: seq<Entry<C>>, k: nat, clock: int, now: int)
    requires Strict(pool) && UpTo(pool, clock) && k < |pool| && clock < now
    ensures Strict(Touched(pool, k, now))
  {
    assert forall i | 0 <= i < |pool| :: pool[i] in pool;
  }

  lemma {:induction false} AfterStrict<C>(pool: seq<Entry<C>>, max: nat, clock: int, q: Request<C>)
    requires Strict(pool) && UpTo(pool, clock) && (q.Fetch? ==> clock < q.tTouch < q.tInsert)
    ensures Strict(PoolModel.After(pool, max, q))
  {
    var k := IndexOf(pool, q.tenant);
    if k >= 0 {
      RemoveStrict(pool, k);
      RemoveUpTo(pool, k, clock);
    }
    if q.Fetch? {
      if k >= 0 && q.alive {
        TouchStrict(pool, k, clock, q.tTouch);
      } else {
        var rest := Freed(pool, q.tenant);
        VacatedStrict(rest, max, clock);
        if q.conn.Some? {
          AppendStrict(Vacated(rest, max), clock, Entry(q.tenant, q.conn.value, q.tInsert));
        }
      }
    }
  }

  lemma {:induction false} StrictNeverAmbiguous<C>(pool: seq<Entry<C>>, list: seq<Tenant>, max: nat, clock: int,
                                                       qs: seq<Request<C>>)
    requires Ranked(pool, list) && max >= 1 && |pool| <= max && UpTo(pool, clock) && Legal(clock, qs)
    requires Strict(pool) && StrictlyTimed(clock, qs)
    ensures NeverAmbiguous(pool, list, max, qs)
    decreases |qs|
  {
    if qs != [] {
      StrictStandsOut(pool, list);
      AfterRanked(pool, list, max, qs[0]);
      AfterUpTo(pool, max, clock, qs[0]);
      AfterStrict(pool, max, clock, qs[0]);
      StrictNeverAmbiguous(PoolModel.After(pool, max, qs[0]), Listed(list, max, qs[0]), max,
                           ClockAfter(clock, qs[0]), qs[1..]);
    }
  }

  // ---------------------------------------------------------------- two pools

  /** The same request to a smaller and a larger pool, whose connections live and die on their own;
      opens succeed. */
  datatype Visit =
    | Visit(tenant: Tenant, aliveSmall: bool, aliveLarge: bool, tTouch: int, tInsert: int)
    | Leave(tenant: Tenant)

  function Asked(v: Visit, side: Side): Request<()> {
    match v
    case Visit(t, aliveSmall, aliveLarge, tTouch, tInsert) =>
      Fetch(t, if side == Small then aliveSmall else aliveLarge, Some(()), tTouch, tInsert)
    case Leave(t) => Free(t, true)
  }

  function Requests(vs: seq<Visit>, side: Side): seq<Request<()>> {
    if vs == [] then [] else [Asked(vs[0], side)] + Requests(vs[1..], side)
  }

  function Calls(vs: seq<Visit>): seq<Call> {
    if vs == [] then []
    else [if vs[0].Visit? then Get(vs[0].tenant) else Release(vs[0].tenant)] + Calls(vs[1..])
  }

  predicate VisitsLegal(clock: int, vs: seq<Visit>) { Legal(clock, Requests(vs, Small)) }

  predicate VisitsStrict(clock: int, vs: seq<Visit>) { StrictlyTimed(clock, Requests(vs, Small)) }

  lemma {:induction false} SidesTimedAlike(clock: int, vs: seq<Visit>)
    ensures Legal(clock, Requests(vs, Large)) == Legal(clock, Requests(vs, Small))
    ensures StrictlyTimed(clock, Requests(vs, Large)) == StrictlyTimed(clock, Requests(vs, Small))
    decreases |vs|
  {
    if vs != [] {
      assert Requests(vs, Large)[1..] == Requests(vs[1..], Large) && Requests(vs, Small)[1..] == Requests(vs[1..], Small);
      SidesTimedAlike(if vs[0].Visit? then vs[0].tInsert else clock, vs[1..]);
    }
  }

  lemma {:induction false} ListIsLruRun(list: seq<Tenant>, max: nat, vs: seq<Visit>, side: Side)
    ensures ListAfter(list, max, Requests(vs, side)) == Run(list, max, Calls(vs))
    decreases |vs|
  {
    if vs != [] {
      assert Requests(vs, side)[1..] == Requests(vs[1..], side) && Calls(vs)[1..] == Calls(vs[1..]);
      ListIsLruRun(Lru.After(list, max, Calls(vs)[0]), max, vs[1..], side);
    }
  }

  function PoolOf(max: nat, vs: seq<Visit>, side: Side): seq<Entry<()>> { PoolAfter([], max, Requests(vs, side)) }

  ghost predicate PoolsIncluded(n: nat, m: nat, vs: seq<Visit>) {
    forall t | t in Tenants(PoolOf(n, vs, Small)) :: t in Tenants(PoolOf(m, vs, Large))
  }

  lemma {:induction false} PoolIsLruRun(max: nat, vs: seq<Visit>, side: Side)
    requires max >= 1 && VisitsLegal(0, vs) && VisitsStrict(0, vs)
    ensures Ranked(PoolOf(max, vs, side), Run([], max, Calls(vs)))
  {
    SidesTimedAlike(0, vs);
    StrictNeverAmbiguous([], [], max, 0, Requests(vs, side));
    FollowsListFrom([], [], max, 0, Requests(vs, side));
    ListIsLruRun([], max, vs, side);
  }

  /** With strictly increasing readings a larger pool holds every tenant a smaller one holds, on the
      same requests, with connections dying at any point in either. */
  lemma {:induction false} StrictInclusion(n: nat, m: nat, vs: seq<Visit>)
    requires 1 <= n <= m && VisitsLegal(0, vs) && VisitsStrict(0, vs)
    ensures PoolsIncluded(n, m, vs)
  {
    PoolIsLruRun(n, vs, Small);
    PoolIsLruRun(m, vs, Large);
    Inclusion(n, m, Calls(vs));
  }

  // ---------------------------------------------------------------- equal readings

  /** No connection dies. */
  predicate NobodyDies(vs: seq<Visit>) {
    forall i | 0 <= i < |vs| && vs[i].Visit? :: vs[i].aliveSmall && vs[i].aliveLarge
  }

  /** Entries all touched at 0, in this order: the scan takes the first. */
  function Queue(ts: seq<Tenant>): seq<Entry<()>> {
    seq(|ts|, i requires 0 <= i < |ts| => Entry(ts[i], (), 0))
  }

  lemma {:induction false} QueueTenants(ts: seq<Tenant>)
    ensures Tenants(Queue(ts)) == ts
  {
    forall i | 0 <= i < |ts| ensures Tenants(Queue(ts))[i] == ts[i] { TenantAt(Queue(ts), i); }
  }

  function Fifo(ts: seq<Tenant>, max: nat, t: Tenant): seq<Tenant> {
    if t in ts then ts else (if |ts| >= max && ts != [] then ts[1..] else ts) + [t]
  }

  function Hit(t: Tenant): Visit { Visit(t, true, true, 0, 0) }

  lemma {:induction false} QueueVacated(ts: seq<Tenant>, max: nat)
    requires forall x | x in ts :: x.id != ""
    ensures Vacated(Queue(ts), max) == Queue(if |ts| >= max && ts != [] then ts[1..] else ts)
  {
    if ts != [] {
      OldestIsUnique(Queue(ts), 0);
      assert ts[0] in ts;
      assert Remove(Queue(ts), 0) == Queue(ts[1..]);
    }
  }

  lemma {:induction false} AfterHit<C>(pool: seq<Entry<C>>, max: nat, q: Request<C>)
    requires q.Fetch? && q.alive && IndexOf(pool, q.tenant) >= 0
    ensures PoolModel.After(pool, max, q) == Touched(pool, IndexOf(pool, q.tenant), q.tTouch)
  {
  }

  lemma {:induction false} AfterMiss<C>(pool: seq<Entry<C>>, max: nat, q: Request<C>)
    requires q.Fetch? && q.conn.Some? && IndexOf(pool, q.tenant) == -1
    ensures PoolModel.After(pool, max, q) == Vacated(pool, max) + [Entry(q.tenant, q.conn.value, q.tInsert)]
  {
  }

  lemma {:induction false} QueueTouched(ts: seq<Tenant>, k: nat)
    requires k < |ts|
    ensures Touched(Queue(ts), k, 0) == Queue(ts)
  {
  }

  lemma {:induction false} QueueAppend(ts: seq<Tenant>, t: Tenant)
    ensures Queue(ts) + [Entry(t, (), 0)] == Queue(ts + [t])
  {
  }

  /** While every reading is the same the pool is a queue: a hit changes nothing, and the entry
      inserted first goes first. */
  lemma {:induction false} QueueAfter(ts: seq<Tenant>, max: nat, t: Tenant, side: Side)
    requires forall x | x in ts :: x.id != ""
    ensures PoolModel.After(Queue(ts), max, Asked(Hit(t), side)) == Queue(Fifo(ts, max, t))
  {
    QueueTenants(ts);
    if t in ts {
      AfterHit(Queue(ts), max, Asked(Hit(t), side));
      QueueTouched(ts, IndexOf(Queue(ts), t));
    } else {
      AfterMiss(Queue(ts), max, Asked(Hit(t), side));
      QueueVacated(ts, max);
      QueueAppend(if |ts| >= max && ts != [] then ts[1..] else ts, t);
    }
  }

  lemma {:induction false} PoolAfterSnoc<C>(pool: seq<Entry<C>>, max: nat, qs: seq<Request<C>>, q: Request<C>)
    ensures PoolAfter(pool, max, qs + [q]) == PoolModel.After(PoolAfter(pool, max, qs), max, q)
    decreases |qs|
  {
    if qs == [] {
      assert [] + [q] == [q] && [q][1..] == [];
    } else {
      assert (qs + [q])[1..] == qs[1..] + [q];
      PoolAfterSnoc(PoolModel.After(pool, max, qs[0]), max, qs[1..], q);
    }
  }

  lemma {:induction false} RequestsSnoc(vs: seq<Visit>, v: Visit, side: Side)
    ensures Requests(vs + [v], side) == Requests(vs, side) + [Asked(v, side)]
  {
    if vs == [] {
      assert [] + [v] == [v] && [v][1..] == [];
    } else {
      assert (vs + [v])[1..] == vs[1..] + [v];
      RequestsSnoc(vs[1..], v, side);
    }
  }

  lemma {:induction false} PoolOfSnoc(max: nat, vs: seq<Visit>, t: Tenant, side: Side, ts: seq<Tenant>)
    requires PoolOf(max, vs, side) == Queue(ts) && forall x | x in ts :: x.id != ""
    ensures PoolOf(max, vs + [Hit(t)], side) == Queue(Fifo(ts, max, t))
  {
    RequestsSnoc(vs, Hit(t), side);
    PoolAfterSnoc([], max, Requests(vs, side), Asked(Hit(t), side));
    QueueAfter(ts, max, t, side);
  }

  /** Visits all at 0 by living connections. */
  ghost predicate AtZero(vs: seq<Visit>) {
    forall i | 0 <= i < |vs| :: vs[i].Visit? && vs[i] == Hit(vs[i].tenant) && vs[i].tenant.id != ""
  }

  lemma {:induction false} AtZeroIsLegal(vs: seq<Visit>)
    requires AtZero(vs)
    ensures VisitsLegal(0, vs) && NobodyDies(vs)
  {
    if vs != [] {
      assert forall i | 0 <= i < |vs| - 1 :: vs[1..][i] == vs[i + 1];
      assert vs[0] == Hit(vs[0].tenant);
      assert Requests(vs, Small)[1..] == Requests(vs[1..], Small);
      AtZeroIsLegal(vs[1..]);
    }
  }

  function FirstVisits(j: nat): seq<Visit> {
    if j == 0 then [] else FirstVisits(j - 1) + [Hit(Nth(j - 1))]
  }

  lemma {:induction false} NumberedNames(lo: nat, hi: nat)
    ensures forall t | t in Numbered(lo, hi) :: t.id != ""
  {
    forall t | t in Numbered(lo, hi) ensures t.id != "" {
      var k: nat :| k < |Numbered(lo, hi)| && Numbered(lo, hi)[k] == t;
      assert t == Nth(lo + k) && |Unary(lo + k)| == lo + k + 1;
    }
  }

  function Last(max: nat, j: nat): seq<Tenant> { Numbered(if j > max then j - max else 0, j) }

  lemma {:induction false} LastNext(max: nat, j: nat)
    requires max >= 1
    ensures Fifo(Last(max, j), max, Nth(j)) == Last(max, j + 1)
  {
    var lo := if j > max then j - max else 0;
    NumberedMembers(lo, j, j);
    if j >= max {
      assert Numbered(lo, j)[1..] + [Nth(j)] == Numbered(lo + 1, j + 1);
    } else {
      assert Numbered(0, j) + [Nth(j)] == Numbered(0, j + 1);
    }
  }

  /** Tenants 0, ..., j-1 in turn leave the last `max` of them. */
  lemma {:induction false} FirstVisitsFill(max: nat, j: nat, side: Side)
    requires max >= 1
    ensures PoolOf(max, FirstVisits(j), side) == Queue(Last(max, j))
  {
    if j > 0 {
      FirstVisitsFill(max, j - 1, side);
      NumberedNames(if j - 1 > max then j - 1 - max else 0, j - 1);
      PoolOfSnoc(max, FirstVisits(j - 1), Nth(j - 1), side, Last(max, j - 1));
      LastNext(max, j - 1);
    }
  }

  lemma {:induction false} FirstVisitsAtZero(j: nat)
    ensures AtZero(FirstVisits(j))
  {
    if j > 0 {
      FirstVisitsAtZero(j - 1);
    }
  }

  /** Two more visits: tenant 1 again, then a newcomer. */
  function TwoMore(m: nat): seq<Visit> { FirstVisits(m + 1) + [Hit(Nth(1))] + [Hit(Nth(m + 1))] }

  lemma {:induction false} NewcomersKeep(before: seq<Tenant>, n: nat, x: Tenant, y: Tenant)
    requires |before| == n >= 2 && x !in before && y !in before && x != y
    ensures Fifo(before, n, x) == before[1..] + [x]
    ensures x in Fifo(before[1..] + [x], n, y)
  {
    var after := (before[1..] + [x])[1..] + [y];
    assert y !in before[1..] + [x];
    assert after[|after| - 2] == x;
  }

  lemma {:induction false} TwoNewcomers(n: nat, vs: seq<Visit>, before: seq<Tenant>, x: Tenant, y: Tenant)
    requires PoolOf(n, vs, Small) == Queue(before) && (forall t | t in before :: t.id != "") && x.id != ""
    requires |before| == n >= 2 && x !in before && y !in before && x != y
    ensures x in Tenants(PoolOf(n, vs + [Hit(x)] + [Hit(y)], Small))
  {
    NewcomersKeep(before, n, x, y);
    PoolOfSnoc(n, vs, x, Small, before);
    PoolOfSnoc(n, vs + [Hit(x)], y, Small, before[1..] + [x]);
    QueueTenants(Fifo(before[1..] + [x], n, y));
  }

  lemma {:induction false} LastFacts(n: nat, m: nat)
    requires 2 <= n < m
    ensures |Last(n, m + 1)| == n && (forall t | t in Last(n, m + 1) :: t.id != "")
    ensures Nth(1) !in Last(n, m + 1) && Nth(m + 1) !in Last(n, m + 1)
  {
    NumberedNames(m + 1 - n, m + 1);
    NumberedMembers(m + 1 - n, m + 1, 1);
    NumberedMembers(m + 1 - n, m + 1, m + 1);
  }

  lemma {:induction false} SmallKeepsOne(n: nat, m: nat)
    requires 2 <= n < m
    ensures Nth(1) in Tenants(PoolOf(n, TwoMore(m), Small))
  {
    FirstVisitsFill(n, m + 1, Small);
    LastFacts(n, m);
    DifferentNames(m);
    TwoNewcomers(n, FirstVisits(m + 1), Last(n, m + 1), Nth(1), Nth(m + 1));
  }

  lemma {:induction false} LargeDropsOne(m: nat)
    requires m >= 3
    ensures Nth(1) !in Tenants(PoolOf(m, TwoMore(m), Large))
  {
    var before := Numbered(1, m + 1);
    FirstVisitsFill(m, m + 1, Large);
    NumberedNames(1, m + 1);
    NumberedMembers(1, m + 1, 1);
    NumberedMembers(1, m + 1, m + 1);
    PoolOfSnoc(m, FirstVisits(m + 1), Nth(1), Large, before);
    PoolOfSnoc(m, FirstVisits(m + 1) + [Hit(Nth(1))], Nth(m + 1), Large, before);
    assert before[1..] + [Nth(m + 1)] == Numbered(2, m + 2);
    NumberedMembers(2, m + 2, 1);
    QueueTenants(Numbered(2, m + 2));
  }

  /** Tenant 1 is asked for again when only the large pool still has it, and one more newcomer
      comes. */
  lemma {:induction false} QueuesDisagree(n: nat, m: nat)
    requires 2 <= n < m
    ensures VisitsLegal(0, TwoMore(m)) && NobodyDies(TwoMore(m)) && !PoolsIncluded(n, m, TwoMore(m))
  {
    SmallKeepsOne(n, m);
    LargeDropsOne(m);
    FirstVisitsAtZero(m + 1);
    DifferentNames(m);
    AtZeroIsLegal(TwoMore(m));
  }

  lemma {:induction false} DifferentNames(m: nat)
    requires m > 1
    ensures Nth(1) != Nth(m + 1) && Nth(m + 1).id != "" && Nth(1).id != ""
  {
    assert |Unary(1)| == 2 && |Unary(m + 1)| == m + 2;
  }

  /** A pool of one holds the tenant visited last, and any larger pool holds that one too. */
  lemma {:induction false} PoolOfOne(small: seq<Entry<()>>, large: seq<Entry<()>>, m: nat, clock: int, vs: seq<Visit>)
    requires m >= 1 && Legal(clock, Requests(vs, Small)) && UpTo(small, clock)
    requires Distinct(Tenants(large)) && |small| <= 1 && forall t | t in Tenants(small) :: t in Tenants(large)
    ensures forall t | t in Tenants(PoolAfter(small, 1, Requests(vs, Small))) ::
              t in Tenants(PoolAfter(large, m, Requests(vs, Large)))
    decreases |vs|
  {
    if vs != [] {
      assert Requests(vs, Small)[1..] == Requests(vs[1..], Small) && Requests(vs, Large)[1..] == Requests(vs[1..], Large);
      var a, b := Asked(vs[0], Small), Asked(vs[0], Large);
      AfterUpTo(small, 1, clock, a);
      AfterSize(small, 1, a);
      PoolOfOneStep(small, large, m, vs[0]);
      PoolOfOne(PoolModel.After(small, 1, a), PoolModel.After(large, m, b), m, ClockAfter(clock, a), vs[1..]);
    }
  }

  lemma {:induction false} RemoveDistinct<C>(pool: seq<Entry<C>>, k: nat)
    requires Distinct(Tenants(pool)) && k < |pool|
    ensures Distinct(Tenants(Remove(pool, k)))
    ensures forall t :: t in Tenants(Remove(pool, k)) <==> t in Tenants(pool) && t != pool[k].tenant
  {
    RemoveTenants(pool, k);
    WithoutDistinct(Tenants(pool), pool[k].tenant);
  }

  lemma {:induction false} FreedDistinct<C>(pool: seq<Entry<C>>, t: Tenant)
    requires Distinct(Tenants(pool))
    ensures Distinct(Tenants(Freed(pool, t)))
    ensures forall x :: x in Tenants(Freed(pool, t)) <==> x in Tenants(pool) && x != t
  {
    if IndexOf(pool, t) >= 0 {
      RemoveDistinct(pool, IndexOf(pool, t));
    }
  }

  lemma {:induction false} VacatedDistinct<C>(pool: seq<Entry<C>>, max: nat)
    requires Distinct(Tenants(pool))
    ensures Distinct(Tenants(Vacated(pool, max)))
    ensures forall x | x in Tenants(Vacated(pool, max)) :: x in Tenants(pool)
  {
    if pool != [] {
      RemoveDistinct(pool, OldestOf(pool));
    }
  }

  lemma {:induction false} AfterDistinct<C>(pool: seq<Entry<C>>, max: nat, q: Request<C>)
    requires Distinct(Tenants(pool))
    ensures Distinct(Tenants(PoolModel.After(pool, max, q)))
  {
    var k := IndexOf(pool, q.tenant);
    FreedDistinct(pool, q.tenant);
    if q.Fetch? {
      if k >= 0 && q.alive {
        TouchedTenants(pool, k, q.tTouch);
      } else {
        var room := Vacated(Freed(pool, q.tenant), max);
        VacatedDistinct(Freed(pool, q.tenant), max);
        if q.conn.Some? {
          AppendTenants(room, Entry(q.tenant, q.conn.value, q.tInsert));
          AppendDistinct(Tenants(room), q.tenant);
        }
      }
    }
  }

  lemma {:induction false} HoldsVisited(pool: seq<Entry<()>>, max: nat, v: Visit, side: Side)
    requires v.Visit?
    ensures v.tenant in Tenants(PoolModel.After(pool, max, Asked(v, side)))
  {
    var k := IndexOf(pool, v.tenant);
    if k >= 0 {
      TouchedTenants(pool, k, v.tTouch);
    }
    AppendTenants(Vacated(Freed(pool, v.tenant), max), Entry(v.tenant, (), v.tInsert));
  }

  lemma {:induction false} PoolOfOneStep(small: seq<Entry<()>>, large: seq<Entry<()>>, m: nat, v: Visit)
    requires Distinct(Tenants(large)) && |small| <= 1 && forall t | t in Tenants(small) :: t in Tenants(large)
    requires |PoolModel.After(small, 1, Asked(v, Small))| <= 1
    ensures Distinct(Tenants(PoolModel.After(large, m, Asked(v, Large))))
    ensures forall t | t in Tenants(PoolModel.After(small, 1, Asked(v, Small))) ::
              t in Tenants(PoolModel.After(large, m, Asked(v, Large)))
  {
    AfterDistinct(large, m, Asked(v, Large));
    if v.Visit? {
      HoldsVisited(small, 1, v, Small);
      HoldsVisited(large, m, v, Large);
    } else {
      FreedDistinct(large, v.tenant);
      OneLeaves(small, v.tenant);
    }
  }

  lemma {:induction false} OneLeaves(small: seq<Entry<()>>, t: Tenant)
    requires |small| <= 1
    ensures forall x | x in Tenants(Freed(small, t)) :: x in Tenants(small) && x != t
  {
    if small != [] {
      assert small[1..] == [] && Tenants(small) == [small[0].tenant];
      assert [small[0].tenant][1..] == [];
      FreedDistinct(small, t);
    }
  }

  lemma {:induction false} SameRequests(vs: seq<Visit>)
    requires NobodyDies(vs)
    ensures Requests(vs, Small) == Requests(vs, Large)
  {
    if vs != [] {
      assert forall i | 0 <= i < |vs| - 1 :: vs[1..][i] == vs[i + 1];
      SameRequests(vs[1..]);
    }
  }

  /** When readings can be equal, inclusion is sure, even if no connection ever dies, only for pools
      of one or of the same size. */
  lemma {:induction false} InclusionWithTiesIff(n: nat, m: nat)
    requires 1 <= n <= m
    ensures (forall vs | VisitsLegal(0, vs) && NobodyDies(vs) :: PoolsIncluded(n, m, vs)) <==> n == 1 || n == m
  {
    if n == 1 {
      forall vs | VisitsLegal(0, vs) && NobodyDies(vs) ensures PoolsIncluded(n, m, vs) { PoolOfOne([], [], m, 0, vs); }
    } else if n == m {
      forall vs | VisitsLegal(0, vs) && NobodyDies(vs) ensures PoolsIncluded(n, m, vs) { SameRequests(vs); }
    } else {
      QueuesDisagree(n, m);
    }
  }

  // ---------------------------------------------------------------- concurrent opens

  /** Between the size check and the insert of `getConnection` lies an await. `Check` runs up to it for
      a tenant without a live entry; the open then arrives or fails. */
  datatype Moment =
    | Check(tenant: Tenant)
    | Arrive(tenant: Tenant, now: int)
    | Fail(tenant: Tenant)
    | Touch(tenant: Tenant, now: int)
    | Lose(tenant: Tenant)

  /** The entries and the opens in flight. */
  datatype Busy = Busy(pool: seq<Entry<()>>, flying: multiset<Tenant>)

  predicate Possible(s: Busy, e: Moment) {
    e.tenant.id != "" && (e.Arrive? || e.Fail? ==> e.tenant in s.flying)
  }

  function Next(s: Busy, max: nat, e: Moment): Busy {
    match e
    case Check(t) => Busy(Vacated(Freed(s.pool, t), max), s.flying + multiset{t})
    case Arrive(t, now) =>
      var k := IndexOf(s.pool, t);
      Busy(if k >= 0 then s.pool[k := Entry(t, (), now)] else s.pool + [Entry(t, (), now)], s.flying - multiset{t})
    case Fail(t) => s.(flying := s.flying - multiset{t})
    case Touch(t, now) => s.(pool := if IndexOf(s.pool, t) >= 0 then Touched(s.pool, IndexOf(s.pool, t), now) else s.pool)
    case Lose(t) => s.(pool := Freed(s.pool, t))
  }

  /** With no other call during its await, each call does to the pool what it does as one request. */
  lemma {:induction false} SoloMoments(s: Busy, max: nat, t: Tenant, tTouch: int, tInsert: int)
    requires Distinct(Tenants(s.pool))
    ensures var arrived := Next(Next(s, max, Check(t)), max, Arrive(t, tInsert));
            var failed := Next(Next(s, max, Check(t)), max, Fail(t));
            && arrived == s.(pool := PoolModel.After(s.pool, max, Fetch(t, false, Some(()), tTouch, tInsert)))
            && failed == s.(pool := PoolModel.After(s.pool, max, Fetch(t, false, None, tTouch, tInsert)))
            && Next(s, max, Lose(t)) == s.(pool := PoolModel.After(s.pool, max, Free(t, true)))
            && (IndexOf(s.pool, t) >= 0 ==>
                  Next(s, max, Touch(t, tTouch))
                  == s.(pool := PoolModel.After(s.pool, max, Fetch(t, true, None, tTouch, tInsert))))
  {
    FreedDistinct(s.pool, t);
    VacatedDistinct(Freed(s.pool, t), max);
    assert s.flying + multiset{t} - multiset{t} == s.flying;
  }

  lemma {:induction false} NextOneEntry(s: Busy, max: nat, e: Moment)
    requires Distinct(Tenants(s.pool))
    ensures Distinct(Tenants(Next(s, max, e).pool))
  {
    var k := IndexOf(s.pool, e.tenant);
    FreedDistinct(s.pool, e.tenant);
    match e
    case Check(t) => VacatedDistinct(Freed(s.pool, t), max);
    case Arrive(t, now) =>
      if k >= 0 {
        assert s.pool[k].connection == ();
        TouchedTenants(s.pool, k, now);
      } else {
        AppendTenants(s.pool, Entry(t, (), now));
        AppendDistinct(Tenants(s.pool), t);
      }
    case Touch(_, now) => if k >= 0 { TouchedTenants(s.pool, k, now); }
    case _ =>
  }

  /** However opens overlap, two for the same tenant included, no tenant ever has two entries. */
  lemma {:induction false} OneEntryEach(s: Busy, max: nat, es: seq<Moment>)
    requires Distinct(Tenants(s.pool)) && Trace(s, max, es)
    ensures Distinct(Tenants(Exec(s, max, es).pool))
    decreases |es|
  {
    if es != [] {
      NextOneEntry(s, max, es[0]);
      OneEntryEach(Next(s, max, es[0]), max, es[1..]);
    }
  }

  predicate Trace(s: Busy, max: nat, es: seq<Moment>)
    decreases |es|
  {
    es == [] || (Possible(s, es[0]) && Trace(Next(s, max, es[0]), max, es[1..]))
  }

  function Exec(s: Busy, max: nat, es: seq<Moment>): Busy
    decreases |es|
  {
    if es == [] then s else Exec(Next(s, max, es[0]), max, es[1..])
  }

  /** Never more than `k` opens in flight. */
  predicate AtMost(s: Busy, max: nat, es: seq<Moment>, k: nat)
    decreases |es|
  {
    |s.flying| <= k && (es == [] || AtMost(Next(s, max, es[0]), max, es[1..], k))
  }

  ghost predicate Named(pool: seq<Entry<()>>) { forall e | e in pool :: e.tenant.id != "" }

  lemma {:induction false} RemoveNamed(pool: seq<Entry<()>>, k: nat)
    requires Named(pool) && k < |pool|
    ensures Named(Remove(pool, k))
  {
  }

  lemma {:induction false} CheckFits(s: Busy, max: nat, t: Tenant, k: nat)
    requires max >= 1 && Named(s.pool) && |s.pool| + |s.flying| <= max + k - 1 && |s.flying| < k
    ensures var s' := Next(s, max, Check(t));
            Named(s'.pool) && |s'.pool| + |s'.flying| <= max + k - 1
  {
    var rest := Freed(s.pool, t);
    if IndexOf(s.pool, t) >= 0 {
      RemoveNamed(s.pool, IndexOf(s.pool, t));
    }
    if |rest| >= max {
      assert rest[OldestOf(rest)] in rest;
      RemoveNamed(rest, OldestOf(rest));
    }
  }

  lemma {:induction false} NextFits(s: Busy, max: nat, e: Moment, k: nat)
    requires max >= 1 && Named(s.pool) && |s.pool| + |s.flying| <= max + k - 1
    requires Possible(s, e) && |Next(s, max, e).flying| <= k
    ensures var s' := Next(s, max, e);
            Named(s'.pool) && |s'.pool| + |s'.flying| <= max + k - 1
  {
    match e
    case Check(t) => CheckFits(s, max, t, k);
    case Touch(t, now) =>
      if IndexOf(s.pool, t) >= 0 {
        assert s.pool[IndexOf(s.pool, t)] in s.pool;
      }
    case Lose(t) =>
      if IndexOf(s.pool, t) >= 0 {
        RemoveNamed(s.pool, IndexOf(s.pool, t));
      }
    case _ =>
  }

  lemma {:induction false} ConcurrentBound(s: Busy, max: nat, es: seq<Moment>, k: nat)
    requires max >= 1 && k >= 1 && Named(s.pool) && |s.pool| + |s.flying| <= max + k - 1
    requires Trace(s, max, es) && AtMost(s, max, es, k)
    ensures |Exec(s, max, es).pool| <= max + k - 1
    decreases |es|
  {
    if es != [] {
      NextFits(s, max, es[0], k);
      ConcurrentBound(Next(s, max, es[0]), max, es[1..], k);
    }
  }

  const QUIET := Busy([], multiset{})

  function Pile(pool: nat, flying: nat): Busy
  {
    Busy(Queue(Numbered(0, pool)), multiset(Numbered(pool, pool + flying)))
  }

  lemma {:induction false} MomentsJoin(s: Busy, max: nat, es: seq<Moment>, e: Moment, k: nat)
    requires Trace(s, max, es) && AtMost(s, max, es, k) && Possible(Exec(s, max, es), e)
    requires |Next(Exec(s, max, es), max, e).flying| <= k
    ensures Trace(s, max, es + [e]) && AtMost(s, max, es + [e], k)
    ensures Exec(s, max, es + [e]) == Next(Exec(s, max, es), max, e)
    decreases |es|
  {
    if es == [] {
      assert [] + [e] == [e] && [e][1..] == [];
    } else {
      assert (es + [e])[1..] == es[1..] + [e];
      MomentsJoin(Next(s, max, es[0]), max, es[1..], e, k);
    }
  }

  ghost predicate Reached(max: nat, k: nat, es: seq<Moment>, s: Busy) {
    Trace(QUIET, max, es) && AtMost(QUIET, max, es, k) && Exec(QUIET, max, es) == s
  }

  lemma {:induction false} Reach(max: nat, k: nat, es: seq<Moment>, s: Busy, e: Moment, s': Busy)
    returns (es': seq<Moment>)
    requires Reached(max, k, es, s) && Possible(s, e) && Next(s, max, e) == s' && |s'.flying| <= k
    ensures Reached(max, k, es', s')
  {
    MomentsJoin(QUIET, max, es, e, k);
    es' := es + [e];
  }

  lemma {:induction false} NumberedSnoc(lo: nat, hi: nat)
    requires lo <= hi
    ensures Numbered(lo, hi + 1) == Numbered(lo, hi) + [Nth(hi)]
    ensures lo < hi ==> Numbered(lo, hi) == [Nth(lo)] + Numbered(lo + 1, hi)
  {
  }

  lemma {:induction false} AbsentFromQueue(ts: seq<Tenant>, t: Tenant)
    requires t !in ts
    ensures IndexOf(Queue(ts), t) == -1 && Freed(Queue(ts), t) == Queue(ts)
  {
    QueueTenants(ts);
  }

  lemma {:induction false} FlyingSnoc(lo: nat, hi: nat)
    requires lo <= hi
    ensures multiset(Numbered(lo, hi + 1)) == multiset(Numbered(lo, hi)) + multiset{Nth(hi)}
  {
    NumberedSnoc(lo, hi);
  }

  lemma {:induction false} FlyingTail(lo: nat, hi: nat)
    requires lo < hi
    ensures multiset(Numbered(lo, hi)) == multiset{Nth(lo)} + multiset(Numbered(lo + 1, hi))
  {
    NumberedSnoc(lo, hi);
    assert multiset([Nth(lo)] + Numbered(lo + 1, hi)) == multiset{Nth(lo)} + multiset(Numbered(lo + 1, hi));
  }

  lemma {:induction false} QueueSnoc(n: nat)
    ensures Queue(Numbered(0, n)) + [Entry(Nth(n), (), 0)] == Queue(Numbered(0, n + 1))
  {
    NumberedSnoc(0, n);
  }

  /** A check by a newcomer while the pool is not full evicts nobody. */
  lemma {:induction false} CheckAdds(ts: seq<Tenant>, flying: multiset<Tenant>, max: nat, t: Tenant)
    requires t !in ts && |ts| < max
    ensures Next(Busy(Queue(ts), flying), max, Check(t)) == Busy(Queue(ts), flying + multiset{t})
  {
    AbsentFromQueue(ts, t);
  }

  lemma {:induction false} ArriveMoves(ts: seq<Tenant>, flying: multiset<Tenant>, max: nat, t: Tenant)
    requires t !in ts
    ensures Next(Busy(Queue(ts), multiset{t} + flying), max, Arrive(t, 0)) == Busy(Queue(ts) + [Entry(t, (), 0)], flying)
  {
    AbsentFromQueue(ts, t);
    assert multiset{t} + flying - multiset{t} == flying;
  }

  lemma {:induction false} PileChecks(max: nat, p: nat, f: nat)
    requires p < max
    ensures Possible(Pile(p, f), Check(Nth(p + f)))
    ensures Next(Pile(p, f), max, Check(Nth(p + f))) == Pile(p, f + 1)
  {
    NumberedMembers(0, p, p + f);
    FlyingSnoc(p, p + f);
    CheckAdds(Numbered(0, p), multiset(Numbered(p, p + f)), max, Nth(p + f));
  }

  lemma {:induction false} PileArrives(max: nat, p: nat, f: nat)
    requires f > 0
    ensures Possible(Pile(p, f), Arrive(Nth(p), 0))
    ensures Next(Pile(p, f), max, Arrive(Nth(p), 0)) == Pile(p + 1, f - 1)
  {
    NumberedMembers(0, p, p);
    FlyingTail(p, p + f);
    QueueSnoc(p);
    ArriveMoves(Numbered(0, p), multiset(Numbered(p + 1, p + f)), max, Nth(p));
  }

  lemma {:induction false} PileSize(p: nat, f: nat)
    ensures |Pile(p, f).flying| == f && |Pile(p, f).pool| == p
  {
  }

  lemma {:induction false} OneMoreCheck(max: nat, k: nat, es: seq<Moment>, p: nat, f: nat) returns (es': seq<Moment>)
    requires Reached(max, k, es, Pile(p, f)) && p < max && f < k
    ensures Reached(max, k, es', Pile(p, f + 1))
  {
    PileChecks(max, p, f);
    PileSize(p, f + 1);
    es' := Reach(max, k, es, Pile(p, f), Check(Nth(p + f)), Pile(p, f + 1));
  }

  lemma {:induction false} OneArrival(max: nat, k: nat, es: seq<Moment>, p: nat, f: nat) returns (es': seq<Moment>)
    requires Reached(max, k, es, Pile(p, f)) && 0 < f <= k
    ensures Reached(max, k, es', Pile(p + 1, f - 1))
  {
    PileArrives(max, p, f);
    PileSize(p + 1, f - 1);
    es' := Reach(max, k, es, Pile(p, f), Arrive(Nth(p), 0), Pile(p + 1, f - 1));
  }

  /** `f` checks in a row, then all their opens arrive. */
  lemma {:induction false} ChecksPile(max: nat, k: nat, es: seq<Moment>, p: nat, f: nat) returns (es': seq<Moment>)
    requires Reached(max, k, es, Pile(p, 0)) && p < max && f <= k
    ensures Reached(max, k, es', Pile(p, f))
    decreases f
  {
    es' := es;
    if f > 0 {
      es' := ChecksPile(max, k, es, p, f - 1);
      es' := OneMoreCheck(max, k, es', p, f - 1);
    }
  }

  lemma {:induction false} ArrivalsPile(max: nat, k: nat, es: seq<Moment>, p: nat, f: nat) returns (es': seq<Moment>)
    requires Reached(max, k, es, Pile(p, f)) && f <= k
    ensures Reached(max, k, es', Pile(p + f, 0))
    decreases f
  {
    es' := es;
    if f > 0 {
      var q, g := p + 1, f - 1;
      es' := OneArrival(max, k, es, p, f);
      es' := ArrivalsPile(max, k, es', q, g);
    }
  }

  lemma {:induction false} OneByOne(max: nat, k: nat, p: nat) returns (es: seq<Moment>)
    requires p < max && k >= 1
    ensures Reached(max, k, es, Pile(p, 0))
    decreases p
  {
    if p == 0 {
      es := [];
      assert Pile(0, 0) == QUIET;
    } else {
      es := OneByOne(max, k, p - 1);
      es := ChecksPile(max, k, es, p - 1, 1);
      es := ArrivalsPile(max, k, es, p - 1, 1);
    }
  }

  lemma {:induction false} Overfilled(max: nat, k: nat) returns (es: seq<Moment>)
    requires max >= 1 && k >= 1
    ensures Trace(QUIET, max, es) && AtMost(QUIET, max, es, k) && |Exec(QUIET, max, es).pool| == max + k - 1
  {
    es := OneByOne(max, k, max - 1);
    es := ChecksPile(max, k, es, max - 1, k);
    es := ArrivalsPile(max, k, es, max - 1, k);
    PileSize(max - 1 + k, 0);
  }

  /** With up to `k` opens in flight at a time the pool holds up to its size plus k - 1, and that
      bound is exact. */
  lemma {:induction false} ConcurrentBoundIff(max: nat, k: nat, b: nat)
    requires max >= 1 && k >= 1
    ensures (forall es | Trace(QUIET, max, es) && AtMost(QUIET, max, es, k) :: |Exec(QUIET, max, es).pool| <= b)
            <==> b >= max + k - 1
  {
    if b >= max + k - 1 {
      forall es | Trace(QUIET, max, es) && AtMost(QUIET, max, es, k) ensures |Exec(QUIET, max, es).pool| <= b {
        ConcurrentBound(QUIET, max, es, k);
      }
    } else {
      var es := Overfilled(max, k);
    }
  }
}
