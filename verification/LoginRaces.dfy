/** Overlapping logins with wrong passwords. Each loads the user, compares the password and saves the
    document it loaded, so a late save can set the count of failures back. */
module LoginRaces {
  import opened Arithmetic
  import opened Lockout
  import opened Optional

  /** A client between two logins, or in one: with the document it has loaded, and when it compared. */
  datatype Stage = Idle | Loaded(account: Account) | Compared(account: Account, at: int)

  /** A client, with the times of its comparisons whose failure locks the account. */
  datatype Client = Client(stage: Stage, locking: seq<int>)

  /** The stored document, the clients, the clock, and how many comparisons did not lock. */
  datatype Race = Race(account: Account, clients: seq<Client>, clock: int, harmless: nat)

  /** A client loads the document; is turned away by the lock or the account's status; compares a
      wrong password, having found the lock run out by then; or saves, having read the clock at
      `read` for the lock it sets. */
  datatype Event =
    | Load(who: nat)
    | GiveUp(who: nat)
    | Compare(who: nat, now: int)
    | Save(who: nat, read: int, now: int)

  function New(k: nat): Race {
    Race(FRESH, seq(k, i => Client(Idle, [])), 0, 0)
  }

  /** A save writes the fields the failure changed, and only those. */
  function Saved(stored: Account, loaded: Account, read: int): Account {
    var failed := AfterFailure(loaded, read);
    stored.(failedLoginAttempts := failed.failedLoginAttempts,
            lockedUntil := if failed.failedLoginAttempts >= MAX_FAILED then failed.lockedUntil else stored.lockedUntil)
  }

  /** The failure of a comparison with this document locks the account. */
  predicate Locks(loaded: Account) { loaded.failedLoginAttempts + 1 >= MAX_FAILED }

  predicate Legal(r: Race, e: Event) {
    e.who < |r.clients| &&
    var stage := r.clients[e.who].stage;
    match e
    case Load(_) => stage.Idle?
    case GiveUp(_) => stage.Loaded?
    case Compare(_, now) => stage.Loaded? && r.clock <= now && !IsLocked(stage.account, now)
    case Save(_, read, now) => stage.Compared? && stage.at <= read <= now && r.clock <= now
  }

  function Next(r: Race, e: Event): Race
    requires Legal(r, e)
  {
    var c := r.clients[e.who];
    match e
    case Load(k) => r.(clients := r.clients[k := c.(stage := Loaded(r.account))])
    case GiveUp(k) => r.(clients := r.clients[k := c.(stage := Idle)])
    case Compare(k, now) =>
      var locks := Locks(c.stage.account);
      r.(clock := now, harmless := if locks then r.harmless else r.harmless + 1,
         clients := r.clients[k := Client(Compared(c.stage.account, now), if locks then c.locking + [now] else c.locking)])
    case Save(k, read, now) =>
      r.(clock := now, account := Saved(r.account, c.stage.account, read), clients := r.clients[k := c.(stage := Idle)])
  }

  predicate Trace(r: Race, es: seq<Event>)
    decreases |es|
  {
    es == [] || (Legal(r, es[0]) && Trace(Next(r, es[0]), es[1..]))
  }

  function Exec(r: Race, es: seq<Event>): Race
    requires Trace(r, es)
    decreases |es|
  {
    if es == [] then r else Exec(Next(r, es[0]), es[1..])
  }

  // ---------------------------------------------------------------- comparisons that do not lock

  /** The number of non-increasing sequences of `len` naturals up to `n`, by Pascal's rule. */
  function Ways(n: nat, len: nat): (w: nat)
    ensures w >= 1
  {
    if n == 0 || len == 0 then 1 else Ways(n - 1, len) + Ways(n, len - 1)
  }

  predicate Falling(a: seq<nat>, top: nat)
    decreases |a|
  {
    a == [] || (a[0] <= top && Falling(a[1..], a[0]))
  }

  /** How many of them come before `a` in lexicographic order. */
  function Rank(a: seq<nat>): nat {
    if a == [] then 0 else (if a[0] == 0 then 0 else Ways(a[0] - 1, |a|)) + Rank(a[1..])
  }

  lemma {:induction false} WaysGrow(n: nat, m: nat, len: nat)
    requires n <= m
    ensures Ways(n, len) <= Ways(m, len)
    decreases m
  {
    if n < m && len > 0 {
      WaysGrow(n, m - 1, len);
    }
  }

  lemma {:induction false} RankBelow(a: seq<nat>, top: nat)
    requires Falling(a, top)
    ensures Rank(a) < Ways(top, |a|)
    decreases |a|
  {
    if a != [] {
      RankBelow(a[1..], a[0]);
      WaysGrow(a[0], top, |a|);
    }
  }

  /** `b` is above `a` in lexicographic order, at position `i` at the latest. */
  lemma {:induction false} RankGrows(a: seq<nat>, b: seq<nat>, top: nat, i: nat)
    requires |a| == |b| && i <= |a| && Falling(a, top)
    requires forall j | 0 <= j < i :: a[j] <= b[j]
    requires i < |a| ==> a[i] < b[i]
    ensures Rank(a) <= Rank(b) && (i < |a| ==> Rank(a) < Rank(b))
    decreases |a|
  {
    if a != [] {
      if a[0] < b[0] {
        RankBelow(a, a[0]);
        WaysGrow(a[0], b[0] - 1, |a|);
      } else {
        assert forall j | 0 <= j < i - 1 :: a[1..][j] == a[j + 1] && b[1..][j] == b[j + 1];
        RankGrows(a[1..], b[1..], a[0], i - 1);
      }
    }
  }

  /** The count a client's next comparison can start from at best: the one it compared with, or the
      stored one unless it has loaded a lower one. */
  function Level(c: Client, stored: nat): nat {
    match c.stage
    case Idle => stored
    case Loaded(a) => if a.failedLoginAttempts <= stored then a.failedLoginAttempts else stored
    case Compared(a, _) => a.failedLoginAttempts
  }

  /** How many clients are at level `j` or above. */
  function Ahead(cs: seq<Client>, stored: nat, j: nat): (n: nat)
    ensures n <= |cs|
  {
    if cs == [] then 0 else (if Level(cs[0], stored) >= j then 1 else 0) + Ahead(cs[1..], stored, j)
  }

  function Profile(cs: seq<Client>, stored: nat, j: nat): (a: seq<nat>)
    requires j <= MAX_FAILED
    ensures |a| == MAX_FAILED - j
    ensures forall i | 0 <= i < |a| :: a[i] == Ahead(cs, stored, j + i)
    decreases MAX_FAILED - j
  {
    if j == MAX_FAILED then [] else [Ahead(cs, stored, j)] + Profile(cs, stored, j + 1)
  }

  lemma {:induction false} AheadGrows(cs: seq<Client>, n: nat, j: nat, cs': seq<Client>, n': nat, j': nat)
    requires |cs| == |cs'|
    requires forall i | 0 <= i < |cs| :: Level(cs[i], n) >= j ==> Level(cs'[i], n') >= j'
    ensures Ahead(cs, n, j) <= Ahead(cs', n', j')
    decreases |cs|
  {
    if cs != [] {
      assert forall i | 0 <= i < |cs| - 1 :: cs[1..][i] == cs[i + 1] && cs'[1..][i] == cs'[i + 1];
      AheadGrows(cs[1..], n, j, cs'[1..], n', j');
    }
  }

  /** Client `who` reaches a level at which it was not. */
  lemma {:induction false} OneMoreAhead(cs: seq<Client>, n: nat, cs': seq<Client>, n': nat, level: nat, who: nat)
    requires |cs| == |cs'| && who < |cs| && Level(cs[who], n) < level <= Level(cs'[who], n')
    requires forall i | 0 <= i < |cs| :: Level(cs[i], n) >= level ==> Level(cs'[i], n') >= level
    ensures Ahead(cs, n, level) < Ahead(cs', n', level)
    decreases |cs|
  {
    assert forall i | 0 <= i < |cs| - 1 :: cs[1..][i] == cs[i + 1] && cs'[1..][i] == cs'[i + 1];
    if who == 0 {
      AheadGrows(cs[1..], n, level, cs'[1..], n', level);
    } else {
      OneMoreAhead(cs[1..], n, cs'[1..], n', level, who - 1);
    }
  }

  lemma {:induction false} ProfileFalls(cs: seq<Client>, n: nat, j: nat, top: nat)
    requires j <= MAX_FAILED && (j < MAX_FAILED ==> Ahead(cs, n, j) <= top)
    ensures Falling(Profile(cs, n, j), top)
    decreases MAX_FAILED - j
  {
    if j < MAX_FAILED {
      assert Profile(cs, n, j)[1..] == Profile(cs, n, j + 1);
      AheadGrows(cs, n, j + 1, cs, n, j);
      ProfileFalls(cs, n, j + 1, Ahead(cs, n, j));
    }
  }

  function Progress(r: Race): nat {
    Rank(Profile(r.clients, r.account.failedLoginAttempts, 1))
  }

  function Min(a: nat, b: nat): nat { if a <= b then a else b }

  /** No client falls below the level it had, or below `cap`. */
  ghost predicate NoneFallsBack(r: Race, r': Race, cap: nat) {
    && |r.clients| == |r'.clients|
    && forall x | 0 <= x < |r.clients| ::
         Level(r'.clients[x], r'.account.failedLoginAttempts)
         >= Min(Level(r.clients[x], r.account.failedLoginAttempts), cap)
  }

  lemma {:induction false} ProgressKept(r: Race, r': Race)
    requires NoneFallsBack(r, r', MAX_FAILED - 1)
    ensures Progress(r) <= Progress(r')
  {
    var d, d' := r.account.failedLoginAttempts, r'.account.failedLoginAttempts;
    forall i | 0 <= i < MAX_FAILED - 1 ensures Profile(r.clients, d, 1)[i] <= Profile(r'.clients, d', 1)[i] {
      AheadGrows(r.clients, d, i + 1, r'.clients, d', i + 1);
    }
    ProfileFalls(r.clients, d, 1, |r.clients|);
    RankGrows(Profile(r.clients, d, 1), Profile(r'.clients, d', 1), |r.clients|, MAX_FAILED - 1);
  }

  lemma {:induction false} ProgressGrows(r: Race, r': Race, level: nat, who: nat)
    requires 1 <= level < MAX_FAILED && NoneFallsBack(r, r', level) && who < |r.clients|
    requires Level(r.clients[who], r.account.failedLoginAttempts) < level
             <= Level(r'.clients[who], r'.account.failedLoginAttempts)
    ensures Progress(r) < Progress(r')
  {
    var d, d' := r.account.failedLoginAttempts, r'.account.failedLoginAttempts;
    forall i | 0 <= i < level ensures Profile(r.clients, d, 1)[i] <= Profile(r'.clients, d', 1)[i] {
      AheadGrows(r.clients, d, i + 1, r'.clients, d', i + 1);
    }
    OneMoreAhead(r.clients, d, r'.clients, d', level, who);
    ProfileFalls(r.clients, d, 1, |r.clients|);
    RankGrows(Profile(r.clients, d, 1), Profile(r'.clients, d', 1), |r.clients|, level - 1);
  }

  predicate Unsaved(c: Client) { c.stage.Compared? && !Locks(c.stage.account) }

  /** Comparisons that do not lock and are still to be saved. */
  function UnsavedIn(cs: seq<Client>): nat {
    if cs == [] then 0 else (if Unsaved(cs[0]) then 1 else 0) + UnsavedIn(cs[1..])
  }

  lemma {:induction false} UnsavedUpdate(cs: seq<Client>, k: nat, c: Client)
    requires k < |cs|
    ensures UnsavedIn(cs[k := c])
            == UnsavedIn(cs) - (if Unsaved(cs[k]) then 1 else 0) + (if Unsaved(c) then 1 else 0)
  {
    if k == 0 {
      assert cs[k := c][1..] == cs[1..];
    } else {
      assert cs[k := c][1..] == cs[1..][k - 1 := c];
      UnsavedUpdate(cs[1..], k - 1, c);
    }
  }

  lemma {:induction false} UnsavedAt(cs: seq<Client>) returns (k: nat)
    requires UnsavedIn(cs) > 0
    ensures k < |cs| && Unsaved(cs[k])
  {
    if Unsaved(cs[0]) {
      k := 0;
    } else {
      k := UnsavedAt(cs[1..]);
      k := k + 1;
    }
  }

  lemma {:induction false} OthersKeepProgress(r: Race, e: Event)
    requires Legal(r, e) && !e.Save?
    ensures Progress(r) <= Progress(Next(r, e))
  {
    ProgressKept(r, Next(r, e));
  }

  lemma {:induction false} SaveProgress(r: Race, k: nat, read: int, now: int)
    requires Legal(r, Save(k, read, now))
    ensures Progress(Next(r, Save(k, read, now))) >= Progress(r) + if Unsaved(r.clients[k]) then 1 else 0
  {
    var r' := Next(r, Save(k, read, now));
    var from := r.clients[k].stage.account.failedLoginAttempts;
    assert Level(r.clients[k], r.account.failedLoginAttempts) == from;
    assert Level(r'.clients[k], r'.account.failedLoginAttempts) == from + 1;
    if Unsaved(r.clients[k]) {
      ProgressGrows(r, r', from + 1, k);
    } else {
      ProgressKept(r, r');
    }
  }

  lemma {:induction false} NextHarmless(r: Race, e: Event)
    requires Legal(r, e) && r.harmless <= Progress(r) + UnsavedIn(r.clients)
    ensures Next(r, e).harmless <= Progress(Next(r, e)) + UnsavedIn(Next(r, e).clients)
  {
    var r' := Next(r, e);
    UnsavedUpdate(r.clients, e.who, r'.clients[e.who]);
    if e.Save? {
      SaveProgress(r, e.who, e.read, e.now);
    } else {
      OthersKeepProgress(r, e);
    }
  }

  lemma {:induction false} ExecHarmless(r: Race, es: seq<Event>)
    requires Trace(r, es) && r.harmless <= Progress(r) + UnsavedIn(r.clients)
    ensures var r' := Exec(r, es);
            r'.harmless <= Progress(r') + UnsavedIn(r'.clients) && |r'.clients| == |r.clients|
    decreases |es|
  {
    if es != [] {
      NextHarmless(r, es[0]);
      ExecHarmless(Next(r, es[0]), es[1..]);
    }
  }

  /** Saving what is unsaved shows the room that was left for it. */
  lemma {:induction false} RoomForUnsaved(r: Race)
    ensures Progress(r) + UnsavedIn(r.clients) < Ways(|r.clients|, MAX_FAILED - 1)
    decreases UnsavedIn(r.clients)
  {
    if UnsavedIn(r.clients) > 0 {
      var k := UnsavedAt(r.clients);
      var at := r.clients[k].stage.at;
      var r1 := r.(clock := at);
      SaveProgress(r1, k, at, at);
      UnsavedUpdate(r.clients, k, r.clients[k].(stage := Idle));
      RoomForUnsaved(Next(r1, Save(k, at, at)));
    } else {
      ProfileFalls(r.clients, r.account.failedLoginAttempts, 1, |r.clients|);
      RankBelow(Profile(r.clients, r.account.failedLoginAttempts, 1), |r.clients|);
    }
  }

  // ---------------------------------------------------------------- comparisons that lock

  /** Every save reads the clock at most `gap` milliseconds before it writes. */
  predicate Prompt(es: seq<Event>, gap: nat) {
    forall i | 0 <= i < |es| && es[i].Save? :: es[i].now - es[i].read <= gap
  }

  ghost predicate Spaced(ts: seq<int>, clock: int, gap: nat) {
    && (forall i | 0 <= i < |ts| :: 0 <= ts[i] <= clock)
    && (forall i | 1 <= i < |ts| :: ts[i] >= ts[i - 1] + LOCK_MS - gap)
  }

  predicate LockedFrom(a: Account, t: int, gap: nat) {
    a.lockedUntil.Some? && a.lockedUntil.value >= t + LOCK_MS - gap
  }

  /** A client's last locking comparison is still to be saved, or its lock, set at most `gap` earlier,
      is in the stored document and in the one it has loaded since. */
  ghost predicate LockFollows(a: Account, gap: nat, c: Client) {
    c.locking != [] ==>
      var last := c.locking[|c.locking| - 1];
      if c.stage.Compared? && Locks(c.stage.account) then c.stage.at >= last
      else LockedFrom(a, last, gap) && (c.stage.Loaded? ==> LockedFrom(c.stage.account, last, gap))
  }

  ghost predicate ClientOk(a: Account, clock: int, gap: nat, c: Client) {
    Spaced(c.locking, clock, gap) && LockFollows(a, gap, c)
  }

  ghost predicate ClientsOk(r: Race, gap: nat) {
    r.clock >= 0 && forall x | 0 <= x < |r.clients| :: ClientOk(r.account, r.clock, gap, r.clients[x])
  }

  lemma {:induction false} CompareOk(a: Account, clock: int, gap: nat, c: Client, now: int)
    requires ClientOk(a, clock, gap, c) && 0 <= clock <= now && c.stage.Loaded? && !IsLocked(c.stage.account, now)
    ensures ClientOk(a, now, gap, Client(Compared(c.stage.account, now),
                                         if Locks(c.stage.account) then c.locking + [now] else c.locking))
  {
  }

  /** A save, as seen by the client that saves and by another. */
  lemma {:induction false} SaveOk(a: Account, clock: int, gap: nat, c: Client, loaded: Account, read: int, now: int)
    requires ClientOk(a, clock, gap, c) && clock <= now && now - read <= gap
    ensures !(c.stage.Compared? && Locks(c.stage.account)) ==> ClientOk(Saved(a, loaded, read), now, gap, c.(stage := Idle))
    ensures c.stage.Compared? && c.stage.account == loaded && c.stage.at <= read
            ==> ClientOk(Saved(a, loaded, read), now, gap, c.(stage := Idle))
    ensures ClientOk(Saved(a, loaded, read), now, gap, c)
  {
    assert forall i | 0 <= i < |c.locking| :: c.locking[i] <= clock;
  }

  lemma {:induction false} NextClientsOk(r: Race, e: Event, gap: nat)
    requires ClientsOk(r, gap) && Legal(r, e) && (e.Save? ==> e.now - e.read <= gap)
    ensures ClientsOk(Next(r, e), gap)
  {
    var r', c := Next(r, e), r.clients[e.who];
    forall x | 0 <= x < |r.clients| ensures ClientOk(r'.account, r'.clock, gap, r'.clients[x]) {
      match e
      case Compare(k, now) => CompareOk(r.account, r.clock, gap, c, now);
      case Save(k, read, now) => SaveOk(r.account, r.clock, gap, r.clients[x], c.stage.account, read, now);
      case _ =>
    }
  }

  lemma {:induction false} ExecClientsOk(r: Race, es: seq<Event>, gap: nat)
    requires ClientsOk(r, gap) && Trace(r, es) && Prompt(es, gap)
    ensures ClientsOk(Exec(r, es), gap)
    decreases |es|
  {
    if es != [] {
      assert forall i | 0 <= i < |es| - 1 :: es[1..][i] == es[i + 1];
      NextClientsOk(r, es[0], gap);
      ExecClientsOk(Next(r, es[0]), es[1..], gap);
    }
  }

  function LockingIn(cs: seq<Client>): nat {
    if cs == [] then 0 else |cs[0].locking| + LockingIn(cs[1..])
  }

  function Comparisons(r: Race): nat { r.harmless + LockingIn(r.clients) }

  ghost predicate Within(cs: seq<Client>, lo: int, hi: int) {
    forall x, i | 0 <= x < |cs| && 0 <= i < |cs[x].locking| :: lo <= cs[x].locking[i] <= hi
  }

  lemma {:induction false} Apart(ts: seq<int>, clock: int, gap: nat, n: nat)
    requires Spaced(ts, clock, gap) && 1 <= n <= |ts|
    ensures ts[n - 1] >= ts[0] + (n - 1) * (LOCK_MS - gap)
  {
    if n > 1 {
      Apart(ts, clock, gap, n - 1);
    }
  }

  lemma {:induction false} PerClient(ts: seq<int>, clock: int, gap: nat, lo: int, hi: int)
    requires Spaced(ts, clock, gap) && gap < LOCK_MS && lo <= hi
    requires forall i | 0 <= i < |ts| :: lo <= ts[i] <= hi
    ensures |ts| <= 1 + (hi - lo) / (LOCK_MS - gap)
  {
    DivAtLeast(hi - lo, 0, LOCK_MS - gap);
    if |ts| > 1 {
      Apart(ts, clock, gap, |ts|);
      DivAtLeast(hi - lo, |ts| - 1, LOCK_MS - gap);
    }
  }

  lemma {:induction false} SumAtMost(cs: seq<Client>, m: nat)
    requires forall x | 0 <= x < |cs| :: |cs[x].locking| <= m
    ensures LockingIn(cs) <= |cs| * m
  {
    if cs != [] {
      SumAtMost(cs[1..], m);
      assert |cs| * m == |cs[1..]| * m + m;
    }
  }

  lemma {:induction false} HarmlessBound(k: nat, es: seq<Event>)
    requires Trace(New(k), es)
    ensures Exec(New(k), es).harmless <= Ways(k, 4) - 1 && |Exec(New(k), es).clients| == k
  {
    NoneUnsaved(New(k).clients);
    ExecHarmless(New(k), es);
    RoomForUnsaved(Exec(New(k), es));
  }

  lemma {:induction false} LockingBound(r: Race, gap: nat, lo: int, hi: int)
    requires ClientsOk(r, gap) && gap < LOCK_MS && lo <= hi && Within(r.clients, lo, hi)
    ensures 0 <= (hi - lo) / (LOCK_MS - gap)
    ensures LockingIn(r.clients) <= |r.clients| * (1 + (hi - lo) / (LOCK_MS - gap))
  {
    DivAtLeast(hi - lo, 0, LOCK_MS - gap);
    forall x | 0 <= x < |r.clients| ensures |r.clients[x].locking| <= 1 + (hi - lo) / (LOCK_MS - gap) {
      assert ClientOk(r.account, r.clock, gap, r.clients[x]);
      PerClient(r.clients[x].locking, r.clock, gap, lo, hi);
    }
    SumAtMost(r.clients, 1 + (hi - lo) / (LOCK_MS - gap));
  }

  /** However `k` clients' wrong passwords overlap, at most C(k + 4, 4) - 1 comparisons do not lock
      the account, and those that do number at most k per fifteen minutes (less the gap) begun. */
  lemma {:induction false} OverlapBound(k: nat, es: seq<Event>, gap: nat, lo: int, hi: int)
    requires Trace(New(k), es) && Prompt(es, gap) && gap < LOCK_MS
    requires lo <= hi && Within(Exec(New(k), es).clients, lo, hi)
    ensures Exec(New(k), es).harmless <= Ways(k, 4) - 1
    ensures LockingIn(Exec(New(k), es).clients) <= k * (1 + (hi - lo) / (LOCK_MS - gap))
  {
    HarmlessBound(k, es);
    ExecClientsOk(New(k), es, gap);
    LockingBound(Exec(New(k), es), gap, lo, hi);
  }

  lemma {:induction false} NoneUnsaved(cs: seq<Client>)
    requires forall x | 0 <= x < |cs| :: cs[x].stage.Idle?
    ensures UnsavedIn(cs) == 0
  {
    if cs != [] {
      NoneUnsaved(cs[1..]);
    }
  }

  /** n (n + 1) ... (n + len - 1) */
  function Rising(n: int, len: nat): int {
    if len == 0 then 1 else Rising(n, len - 1) * (n + len - 1)
  }

  lemma {:induction false} MulAssoc(a: int, b: int, c: int)
    ensures a * b * c == a * (b * c)
  {
  }

  lemma {:induction false} RisingFromNext(n: int, len: nat)
    ensures Rising(n, len + 1) == n * Rising(n + 1, len)
  {
    if len > 0 {
      RisingFromNext(n, len - 1);
      var p, q := Rising(n + 1, len - 1), n + len;
      assert Rising(n, len + 1) == Rising(n, len) * q && Rising(n + 1, len) == p * q;
      MulAssoc(n, p, q);
    }
  }

  function Factorial(len: nat): nat { if len == 0 then 1 else Factorial(len - 1) * len }

  /** Ways(n, len) is the binomial coefficient of n + len over len. */
  lemma {:induction false} WaysClosed(n: nat, len: nat)
    ensures Factorial(len) * Ways(n, len) == Rising(n + 1, len)
  {
    if len > 0 {
      WaysClosed(n, len - 1);
      if n == 0 {
        assert Factorial(len) * 1 == Factorial(len - 1) * 1 * len;
      } else {
        WaysClosed(n - 1, len);
        RisingFromNext(n, len - 1);
        PascalStep(n, len, Factorial(len - 1), Ways(n - 1, len), Ways(n, len - 1), Rising(n + 1, len - 1));
      }
    }
  }

  lemma {:induction false} PascalStep(n: int, len: int, f: int, u: int, v: int, p: int)
    requires f * v == p && f * len * u == n * p
    ensures f * len * (u + v) == p * (n + len)
  {
    assert f * len * v == len * (f * v);
  }

  // ---------------------------------------------------------------- the bound is attained

  lemma {:induction false} TraceJoin(r: Race, a: seq<Event>, b: seq<Event>)
    requires Trace(r, a) && Trace(Exec(r, a), b)
    ensures Trace(r, a + b) && Exec(r, a + b) == Exec(Exec(r, a), b)
    decreases |a|
  {
    if a == [] {
      assert a + b == b;
    } else {
      assert (a + b)[1..] == a[1..] + b;
      TraceJoin(Next(r, a[0]), a[1..], b);
    }
  }

  /** A run that never waits between reading the clock and writing. */
  ghost predicate Leads(r: Race, es: seq<Event>, r': Race) {
    Trace(r, es) && Exec(r, es) == r' && Prompt(es, 0)
  }

  lemma {:induction false} LeadsOn(r: Race, a: seq<Event>, r1: Race, b: seq<Event>, r2: Race)
    requires Leads(r, a, r1) && Leads(r1, b, r2)
    ensures Leads(r, a + b, r2)
  {
    TraceJoin(r, a, b);
  }

  lemma {:induction false} LeadsStep(r: Race, a: seq<Event>, r1: Race, e: Event)
    requires Leads(r, a, r1) && Legal(r1, e) && (e.Save? ==> e.now == e.read)
    ensures Leads(r, a + [e], Next(r1, e))
  {
    assert [e][1..] == [] && [e][0] == e;
    LeadsOn(r, a, r1, [e], Next(r1, e));
  }

  ghost predicate FirstIdle(r: Race, q: nat) {
    q <= |r.clients| && forall x | 0 <= x < q :: r.clients[x].stage.Idle?
  }

  /** Client `k` loads and compares at `t`, and holds its save. */
  function Held(r: Race, k: nat, t: int): Race
    requires k < |r.clients|
  {
    var c := r.clients[k];
    var locks := Locks(r.account);
    r.(clock := t, harmless := if locks then r.harmless else r.harmless + 1,
       clients := r.clients[k := Client(Compared(r.account, t), if locks then c.locking + [t] else c.locking)])
  }

  lemma {:induction false} Hold(r: Race, k: nat, t: int) returns (es: seq<Event>)
    requires k < |r.clients| && r.clients[k].stage.Idle? && r.clock <= t && !IsLocked(r.account, t)
    ensures Leads(r, es, Held(r, k, t))
  {
    var r1 := Next(r, Load(k));
    LeadsStep(r, [], r, Load(k));
    LeadsStep(r, [] + [Load(k)], r1, Compare(k, t));
    es := [] + [Load(k)] + [Compare(k, t)];
    assert Next(r1, Compare(k, t)).clients == Held(r, k, t).clients;
  }

  /** Client `k` holds its save for the events of the others. */
  lemma {:induction false} HoldWhile(r: Race, k: nat, t: int, others: seq<Event>, r1: Race) returns (es: seq<Event>)
    requires k < |r.clients| && r.clients[k].stage.Idle? && r.clock <= t && !IsLocked(r.account, t)
    requires Leads(Held(r, k, t), others, r1) && Legal(r1, Save(k, t, t))
    ensures Leads(r, es, Next(r1, Save(k, t, t)))
  {
    es := Hold(r, k, t);
    LeadsOn(r, es, Held(r, k, t), others, r1);
    LeadsStep(r, es + others, r1, Save(k, t, t));
    es := es + others + [Save(k, t, t)];
  }

  /** The document after `q` idle clients have done all they can from a count that leaves `len`
      failures without a lock. */
  function Played(r: Race, q: nat, len: nat): Race {
    r.(account := if q == 0 then r.account else r.account.(failedLoginAttempts := MAX_FAILED - 1),
       harmless := r.harmless + Ways(q, len) - 1)
  }

  /** The last idle client holds its save while the others do all they can, and then sets the count
      back to one more than at the start. */
  lemma {:induction false} SetBack(r: Race, q: nat, len: nat)
    requires FirstIdle(r, q) && r.account.lockedUntil.None? && q > 0 && 0 < len < MAX_FAILED
    requires r.account.failedLoginAttempts == MAX_FAILED - 1 - len
    ensures var r1, e := Played(Held(r, q - 1, r.clock), q - 1, len), Save(q - 1, r.clock, r.clock);
            && Legal(r1, e)
            && Next(r1, e) == r.(account := r.account.(failedLoginAttempts := MAX_FAILED - len),
                                 harmless := r.harmless + Ways(q - 1, len))
            && Played(Next(r1, e), q, len - 1) == Played(r, q, len)
  {
    var r1, e := Played(Held(r, q - 1, r.clock), q - 1, len), Save(q - 1, r.clock, r.clock);
    assert Next(r1, e).clients == r.clients;
  }

  /** All go on from there. */
  lemma {:induction false} Play(r: Race, q: nat, len: nat) returns (es: seq<Event>)
    requires FirstIdle(r, q) && r.account.lockedUntil.None?
    requires len < MAX_FAILED && r.account.failedLoginAttempts == MAX_FAILED - 1 - len
    ensures Leads(r, es, Played(r, q, len))
    decreases q + len
  {
    es := [];
    if q > 0 && len > 0 {
      var held := Held(r, q - 1, r.clock);
      var r1 := Played(held, q - 1, len);
      var others := Play(held, q - 1, len);
      SetBack(r, q, len);
      es := HoldWhile(r, q - 1, r.clock, others, r1);
      var r2 := Next(r1, Save(q - 1, r.clock, r.clock));
      var all := Play(r2, q, len - 1);
      LeadsOn(r, es, r2, all, Played(r, q, len));
      es := es + all;
    }
  }

  /** The first `q` clients have compared at `t` once more, on the same document. */
  function Struck(r: Race, q: nat, t: int): Race
    requires q <= |r.clients|
  {
    r.(account := if q == 0 then r.account else AfterFailure(r.account, t), clock := if q == 0 then r.clock else t,
       clients := seq(|r.clients|, x requires 0 <= x < |r.clients| =>
                    if x < q then Client(Idle, r.clients[x].locking + [t]) else r.clients[x]))
  }

  lemma {:induction false} StruckOnce(r: Race, q: nat, t: int)
    requires 0 < q && FirstIdle(r, q) && Locks(r.account) && r.clock <= t
    ensures var r1 := Struck(Held(r, q - 1, t), q - 1, t);
            Legal(r1, Save(q - 1, t, t)) && Next(r1, Save(q - 1, t, t)) == Struck(r, q, t)
  {
    var r1 := Struck(Held(r, q - 1, t), q - 1, t);
    assert r1.clients[q - 1] == Held(r, q - 1, t).clients[q - 1];
    assert Next(r1, Save(q - 1, t, t)).clients == Struck(r, q, t).clients;
  }

  lemma {:induction false} Strike(r: Race, q: nat, t: int) returns (es: seq<Event>)
    requires FirstIdle(r, q) && Locks(r.account) && r.clock <= t && !IsLocked(r.account, t)
    ensures Leads(r, es, Struck(r, q, t))
    decreases q
  {
    es := [];
    if q == 0 {
      assert Struck(r, 0, t) == r;
    } else {
      var held := Held(r, q - 1, t);
      var others := Strike(held, q - 1, t);
      StruckOnce(r, q, t);
      es := HoldWhile(r, q - 1, t, others, Struck(held, q - 1, t));
    }
  }

  lemma {:induction false} SumExactly(cs: seq<Client>, m: nat)
    requires forall x | 0 <= x < |cs| :: |cs[x].locking| == m
    ensures LockingIn(cs) == |cs| * m
  {
    if cs != [] {
      SumExactly(cs[1..], m);
      assert |cs| * m == |cs[1..]| * m + m;
    }
  }

  /** After `m` locks have run out and all have struck again. */
  ghost predicate Rounded(r: Race, k: nat, m: nat) {
    && |r.clients| == k && FirstIdle(r, k) && (forall x | 0 <= x < k :: |r.clients[x].locking| == m + 1)
    && r.harmless == Ways(k, 4) - 1 && r.clock == m * LOCK_MS && Locks(r.account)
    && r.account.lockedUntil == Some(r.clock + LOCK_MS)
  }

  lemma {:induction false} Rounds(k: nat, m: nat) returns (es: seq<Event>, r: Race)
    requires k >= 1
    ensures Leads(New(k), es, r) && Rounded(r, k, m)
  {
    if m == 0 {
      es := Play(New(k), k, 4);
      r := Played(New(k), k, 4);
    } else {
      es, r := Rounds(k, m - 1);
    }
    var more := Strike(r, k, m * LOCK_MS);
    LeadsOn(New(k), es, r, more, Struck(r, k, m * LOCK_MS));
    es, r := es + more, Struck(r, k, m * LOCK_MS);
  }

  lemma {:induction false} Attained(k: nat, m: nat) returns (es: seq<Event>)
    requires k >= 1
    ensures Trace(New(k), es) && Prompt(es, 0) && Exec(New(k), es).clock == m * LOCK_MS
    ensures Comparisons(Exec(New(k), es)) == Ways(k, 4) - 1 + k * (1 + m)
  {
    var r;
    es, r := Rounds(k, m);
    SumExactly(r.clients, m + 1);
  }

  lemma {:induction false} BoundByTime(k: nat, es: seq<Event>, t: nat)
    requires Trace(New(k), es) && Prompt(es, 0) && Exec(New(k), es).clock <= t
    ensures Comparisons(Exec(New(k), es)) <= Ways(k, 4) - 1 + k * (1 + t / LOCK_MS)
  {
    var r := Exec(New(k), es);
    ExecClientsOk(New(k), es, 0);
    forall x, i | 0 <= x < |r.clients| && 0 <= i < |r.clients[x].locking| ensures 0 <= r.clients[x].locking[i] <= t {
      assert ClientOk(r.account, r.clock, 0, r.clients[x]);
    }
    OverlapBound(k, es, 0, 0, t);
  }

  /** With saves that write at once the two bounds together are exact, for any number of clients and
      any span of time; one client alone gets its five, and one per fifteen minutes. */
  lemma {:induction false} OverlapBoundIff(k: nat, t: nat, n: nat)
    ensures (forall es | Trace(New(k), es) && Prompt(es, 0) && Exec(New(k), es).clock <= t ::
               Comparisons(Exec(New(k), es)) <= n)
            <==> n >= Ways(k, 4) - 1 + k * (1 + t / LOCK_MS)
  {
    if n >= Ways(k, 4) - 1 + k * (1 + t / LOCK_MS) {
      forall es | Trace(New(k), es) && Prompt(es, 0) && Exec(New(k), es).clock <= t
        ensures Comparisons(Exec(New(k), es)) <= n
      {
        BoundByTime(k, es, t);
      }
    } else {
      var es := Attained(k, t / LOCK_MS);
    }
  }

  /** A login nobody else gets between is the login in one step. */
  lemma {:induction false} SoloLogin(r: Race, k: nat, l: Attempt)
    requires k < |r.clients| && r.clients[k].stage.Idle? && !IsLocked(r.account, l.tCheck)
    requires MayLogIn(l.status) && !l.correct && r.clock <= l.tCheck <= l.tCompare <= l.tSave
    ensures var es := [Load(k), Compare(k, l.tCompare), Save(k, l.tSave, l.tSave)];
            Trace(r, es) && (Exec(r, es).account, WrongPassword) == Login(r.account, l)
  {
    var a, b, c := Load(k), Compare(k, l.tCompare), Save(k, l.tSave, l.tSave);
    var r1 := Next(r, a);
    var r2 := Next(r1, b);
    LeadsStep(r, [], r, a);
    LeadsStep(r, [] + [a], r1, b);
    LeadsStep(r, [] + [a] + [b], r2, c);
    assert [] + [a] + [b] + [c] == [a, b, c];
  }
}
