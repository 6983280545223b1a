/** The request limiters. Despite their comments they count in fixed windows: the tenant limiter
    in windows aligned to the clock, the endpoint limiter in windows that open with a request. */
module RateLimit {
  import opened Arithmetic
  import opened Optional
  import opened ExpiringKeys

  // ---------------------------------------------------------------- tenant limiter

  function WindowStart(tRead: int, window: int): int
    requires window > 0
  {
    var now := tRead / 1000;
    now - now % window
  }

  /** One request's INCR (with the clock reading that chose its key), or the EXPIRE that follows
      the INCR that created a key. Requests of many clients interleave at this grain. */
  datatype Event = Hit(tRead: int, now: int) | SetExpiry(key: int, now: int)

  /** A request: the clock it read, when it was counted, and whether it was let through. */
  datatype Entry = Entry(tRead: int, time: int, admitted: bool)

  /** One tenant's counters by window start, the keys whose EXPIRE is still to come, the clock,
      and every request so far. */
  datatype Limiter = Limiter(limit: nat, window: int, keys: Keys<int, int>, pending: set<int>,
                             clock: int, log: seq<Entry>)

  predicate Legal(s: Limiter, e: Event) {
    && s.window > 0 && s.clock <= e.now
    && match e
       case Hit(tRead, now) => 0 <= tRead <= now
       case SetExpiry(key, _) => key in s.pending
  }

  function Next(s: Limiter, e: Event): Limiter
    requires Legal(s, e)
  {
    match e
    case Hit(tRead, now) =>
      var key := WindowStart(tRead, s.window);
      var (keys, count) := IncrBy(s.keys, key, 1, now);
      s.(keys := keys, pending := if count == 1 then s.pending + {key} else s.pending,
         clock := now, log := s.log + [Entry(tRead, now, count <= s.limit)])
    case SetExpiry(key, now) =>
      s.(keys := Expire(s.keys, key, s.window * 2, now), pending := s.pending - {key}, clock := now)
  }

  predicate Trace(s: Limiter, es: seq<Event>)
    decreases |es|
  {
    es == [] || (Legal(s, es[0]) && Trace(Next(s, es[0]), es[1..]))
  }

  function Exec(s: Limiter, es: seq<Event>): Limiter
    requires Trace(s, es)
    decreases |es|
  {
    if es == [] then s else Exec(Next(s, es[0]), es[1..])
  }

  function New(limit: nat, window: int): Limiter { Limiter(limit, window, map[], {}, 0, []) }

  /** An INCR that meets the expired counter of its own window, and starts it again at 1. */
  predicate Late(s: Limiter, e: Event)
    requires s.window > 0
  {
    e.Hit? && WindowStart(e.tRead, s.window) in s.keys && !Live(s.keys, WindowStart(e.tRead, s.window), e.now)
  }

  predicate NeverLate(s: Limiter, es: seq<Event>)
    requires Trace(s, es)
    decreases |es|
  {
    es == [] || (!Late(s, es[0]) && NeverLate(Next(s, es[0]), es[1..]))
  }

  /** A request's INCR comes at most two windows after the start of the window it read. */
  predicate Prompt(es: seq<Event>, window: int)
    requires window > 0
  {
    forall i | 0 <= i < |es| && es[i].Hit? ::
      es[i].now <= 1000 * (WindowStart(es[i].tRead, window) + 2 * window)
  }

  function Requests(log: seq<Entry>, key: int, window: int): nat
    requires window > 0
  {
    if log == [] then 0
    else Requests(log[..|log| - 1], key, window)
         + if WindowStart(log[|log| - 1].tRead, window) == key then 1 else 0
  }

  function Admitted(log: seq<Entry>, key: int, window: int): nat
    requires window > 0
  {
    if log == [] then 0
    else Admitted(log[..|log| - 1], key, window)
         + if WindowStart(log[|log| - 1].tRead, window) == key && log[|log| - 1].admitted then 1 else 0
  }

  /** A window's counter counts its requests, lives to the end of the next window at least, and
      has admitted the first `limit` of them. */
  ghost predicate CounterOk(s: Limiter, key: int)
    requires s.window > 0
  {
    && Requests(s.log, key, s.window) == (if key in s.keys then s.keys[key].value else 0)
    && (key in s.keys ==> s.keys[key].value >= 1)
    && Admitted(s.log, key, s.window)
       == (if Requests(s.log, key, s.window) <= s.limit then Requests(s.log, key, s.window) else s.limit)
    && (key in s.pending ==> key in s.keys && s.keys[key].expiresAt.None? && s.clock >= 1000 * key)
    && (key in s.keys && s.keys[key].expiresAt.Some? ==> s.keys[key].expiresAt.value >= 1000 * (key + 2 * s.window))
  }

  ghost predicate LimiterOk(s: Limiter) {
    s.window > 0 && forall key :: CounterOk(s, key)
  }

  lemma {:induction false} NextOk(s: Limiter, e: Event)
    requires LimiterOk(s) && Legal(s, e) && !Late(s, e)
    ensures LimiterOk(Next(s, e))
  {
    var s' := Next(s, e);
    forall key ensures CounterOk(s', key) {
      assert CounterOk(s, key);
      match e
      case Hit(tRead, now) =>
        assert s'.log[..|s'.log| - 1] == s.log;
        WindowBounds(tRead, s.window);
        assert CounterOk(s, WindowStart(tRead, s.window));
      case SetExpiry(k, now) =>
        assert CounterOk(s, k);
    }
  }

  lemma {:induction false} WindowBounds(tRead: int, window: int)
    requires tRead >= 0 && window > 0
    ensures 1000 * WindowStart(tRead, window) <= tRead < 1000 * (WindowStart(tRead, window) + window)
  {
  }

  lemma {:induction false} ExecOk(s: Limiter, es: seq<Event>)
    requires LimiterOk(s) && Trace(s, es) && NeverLate(s, es)
    ensures LimiterOk(Exec(s, es)) && Exec(s, es).window == s.window && Exec(s, es).limit == s.limit
    decreases |es|
  {
    if es != [] {
      NextOk(s, es[0]);
      ExecOk(Next(s, es[0]), es[1..]);
    }
  }

  lemma {:induction false} NewOk(limit: nat, window: int)
    requires window > 0
    ensures LimiterOk(New(limit, window))
  {
    forall key ensures CounterOk(New(limit, window), key) {}
  }

  /** Every counter tells how many requests its window has had. */
  ghost predicate CountsAll(s: Limiter)
    requires s.window > 0
  {
    forall key :: Requests(s.log, key, s.window) == if key in s.keys then s.keys[key].value else 0
  }

  ghost predicate AlwaysCountsAll(s: Limiter, es: seq<Event>)
    requires s.window > 0 && Trace(s, es)
    decreases |es|
  {
    CountsAll(s) && (es == [] || AlwaysCountsAll(Next(s, es[0]), es[1..]))
  }

  lemma {:induction false} LateMiscounts(s: Limiter, e: Event)
    requires LimiterOk(s) && Legal(s, e) && Late(s, e)
    ensures !CountsAll(Next(s, e))
  {
    var key, s' := WindowStart(e.tRead, s.window), Next(s, e);
    assert CounterOk(s, key);
    assert s'.log[..|s'.log| - 1] == s.log;
    assert Requests(s'.log, key, s.window) == Requests(s.log, key, s.window) + 1;
    assert s'.keys[key].value == 1;
  }

  lemma {:induction false} CountsAllIffFrom(s: Limiter, es: seq<Event>)
    requires LimiterOk(s) && Trace(s, es)
    ensures AlwaysCountsAll(s, es) <==> NeverLate(s, es)
    decreases |es|
  {
    assert CountsAll(s) by {
      forall key ensures Requests(s.log, key, s.window) == if key in s.keys then s.keys[key].value else 0 {
        assert CounterOk(s, key);
      }
    }
    if es != [] {
      if Late(s, es[0]) {
        LateMiscounts(s, es[0]);
      } else {
        NextOk(s, es[0]);
        CountsAllIffFrom(Next(s, es[0]), es[1..]);
      }
    }
  }

  /** The counters tell the requests of their windows throughout a run if and only if no INCR of a
      window meets its expired counter. */
  lemma {:induction false} CountsAllIff(limit: nat, window: int, es: seq<Event>)
    requires window > 0 && Trace(New(limit, window), es)
    ensures AlwaysCountsAll(New(limit, window), es) <==> NeverLate(New(limit, window), es)
  {
    NewOk(limit, window);
    CountsAllIffFrom(New(limit, window), es);
  }

  lemma {:induction false} PromptFrom(s: Limiter, es: seq<Event>)
    requires LimiterOk(s) && Trace(s, es) && Prompt(es, s.window)
    ensures NeverLate(s, es)
    decreases |es|
  {
    if es != [] {
      assert Prompt(es[1..], s.window) by {
        assert forall i | 0 <= i < |es| - 1 :: es[1..][i] == es[i + 1];
      }
      if es[0].Hit? {
        assert CounterOk(s, WindowStart(es[0].tRead, s.window));
      }
      NextOk(s, es[0]);
      PromptFrom(Next(s, es[0]), es[1..]);
    }
  }

  /** A counter outlives its window by a whole one, so an INCR within two windows of the start of
      the window it read is never late. */
  lemma {:induction false} PromptIsNeverLate(limit: nat, window: int, es: seq<Event>)
    requires window > 0 && Trace(New(limit, window), es) && Prompt(es, window)
    ensures NeverLate(New(limit, window), es)
  {
    NewOk(limit, window);
    PromptFrom(New(limit, window), es);
  }

  /** Every aligned window admits exactly its first `limit` requests, and its counter is alive
      at every moment up to two windows after it began. */
  lemma {:induction false} WindowAdmitsLimit(limit: nat, window: int, es: seq<Event>, key: int, now: int)
    requires window > 0 && Trace(New(limit, window), es) && NeverLate(New(limit, window), es)
    ensures var s := Exec(New(limit, window), es);
            && Admitted(s.log, key, window)
               == (if Requests(s.log, key, window) <= limit then Requests(s.log, key, window) else limit)
            && (Requests(s.log, key, window) > 0 && now <= 1000 * (key + 2 * window) ==> Live(s.keys, key, now))
  {
    NewOk(limit, window);
    ExecOk(New(limit, window), es);
    assert CounterOk(Exec(New(limit, window), es), key);
  }

  /** The start of the aligned window of a reading, by division. */
  function Aligned(tRead: int, window: int): int
    requires window > 0
  {
    tRead / 1000 / window * window
  }

  lemma {:induction false} WindowAligned(tRead: int, window: int)
    requires tRead >= 0 && window > 0
    ensures Aligned(tRead, window) == WindowStart(tRead, window)
    ensures Aligned(tRead, window) % window == 0 && (Aligned(tRead, window) + window) % window == 0
    ensures 1000 * Aligned(tRead, window) <= tRead < 1000 * (Aligned(tRead, window) + window)
  {
    RoundsDown(tRead / 1000, window);
    WindowBounds(tRead, window);
  }

  /** Without late INCRs a request is let through exactly when fewer than the limit came before it in the
      aligned window it read. */
  lemma {:induction false} AdmittedIff(limit: nat, window: int, es: seq<Event>, e: Event)
    requires window > 0 && Trace(New(limit, window), es) && NeverLate(New(limit, window), es) && e.Hit?
    requires var s := Exec(New(limit, window), es); s.window == window && Legal(s, e) && !Late(s, e)
    ensures var s := Exec(New(limit, window), es);
            && Next(s, e).log == s.log + [Entry(e.tRead, e.now, Requests(s.log, Aligned(e.tRead, window), window) < limit)]
            && Aligned(e.tRead, window) % window == 0
            && 1000 * Aligned(e.tRead, window) <= e.tRead < 1000 * (Aligned(e.tRead, window) + window)
  {
    NewOk(limit, window);
    ExecOk(New(limit, window), es);
    assert CounterOk(Exec(New(limit, window), es), WindowStart(e.tRead, window));
    WindowAligned(e.tRead, window);
  }

  ghost predicate Leaves(s: Limiter) {
    forall key | key in s.keys && key !in s.pending ::
      s.keys[key].expiresAt.Some? && s.keys[key].expiresAt.value <= s.clock + 2000 * s.window
  }

  lemma {:induction false} ExecLeaves(s: Limiter, es: seq<Event>)
    requires Leaves(s) && Trace(s, es)
    ensures Leaves(Exec(s, es)) && Exec(s, es).window == s.window
    decreases |es|
  {
    if es != [] {
      ExecLeaves(Next(s, es[0]), es[1..]);
    }
  }

  /** Counters do not pile up: in every run, two windows after its last command no counter is left but
      those whose EXPIRE is still to come. */
  lemma {:induction false} CountersGo(limit: nat, window: int, es: seq<Event>, key: int, now: int)
    requires window > 0 && Trace(New(limit, window), es)
    requires key !in Exec(New(limit, window), es).pending
    requires now > Exec(New(limit, window), es).clock + 2000 * window
    ensures !Live(Exec(New(limit, window), es).keys, key, now)
  {
    ExecLeaves(New(limit, window), es);
  }

  function CountOf(s: Limiter, key: int): int { if key in s.keys then s.keys[key].value else 0 }

  function LateFor(s: Limiter, e: Event, key: int): nat
    requires s.window > 0
  {
    if Late(s, e) && WindowStart(e.tRead, s.window) == key then 1 else 0
  }

  /** How many INCRs of a window meet its expired counter. */
  function Lates(s: Limiter, es: seq<Event>, key: int): nat
    requires s.window > 0 && Trace(s, es)
    decreases |es|
  {
    if es == [] then 0
    else LateFor(s, es[0], key) + Lates(Next(s, es[0]), es[1..], key)
  }

  /** Admissions of a window: at most `before` in earlier rounds of its counter, and what the present
      one has counted. */
  predicate Rounds(s: Limiter, key: int, before: int)
    requires s.window > 0
  {
    0 <= CountOf(s, key) &&
    Admitted(s.log, key, s.window) <= before + if CountOf(s, key) <= s.limit then CountOf(s, key) else s.limit
  }

  function Again(s: Limiter, e: Event, key: int): nat
    requires s.window > 0
  {
    if LateFor(s, e, key) == 1 then s.limit else 0
  }

  function AgainAll(s: Limiter, es: seq<Event>, key: int): nat
    requires s.window > 0 && Trace(s, es)
    decreases |es|
  {
    if es == [] then 0 else Again(s, es[0], key) + AgainAll(Next(s, es[0]), es[1..], key)
  }

  lemma {:induction false} AgainIsLimitTimesLates(s: Limiter, es: seq<Event>, key: int)
    requires s.window > 0 && Trace(s, es)
    ensures AgainAll(s, es, key) == Lates(s, es, key) * s.limit
    decreases |es|
  {
    if es != [] {
      var now, later := LateFor(s, es[0], key), Lates(Next(s, es[0]), es[1..], key);
      AgainIsLimitTimesLates(Next(s, es[0]), es[1..], key);
      assert (now + later) * s.limit == now * s.limit + later * s.limit;
    }
  }

  lemma {:induction false} NextRounds(s: Limiter, e: Event, key: int, before: int)
    requires s.window > 0 && Legal(s, e) && Rounds(s, key, before)
    ensures Rounds(Next(s, e), key, before + Again(s, e, key))
  {
    if e.Hit? {
      assert Next(s, e).log[..|s.log|] == s.log;
    }
  }

  lemma {:induction false} ExecRounds(s: Limiter, es: seq<Event>, key: int, before: int)
    requires s.window > 0 && Trace(s, es) && Rounds(s, key, before)
    ensures Exec(s, es).window == s.window && Exec(s, es).limit == s.limit
    ensures Rounds(Exec(s, es), key, before + AgainAll(s, es, key))
    decreases |es|
  {
    if es != [] {
      NextRounds(s, es[0], key, before);
      ExecRounds(Next(s, es[0]), es[1..], key, before + Again(s, es[0], key));
    }
  }

  /** However late its INCRs, a window admits at most the limit once more for each that meets the
      expired counter. */
  lemma {:induction false} LateWindowAdmits(limit: nat, window: int, es: seq<Event>, key: int)
    requires window > 0 && Trace(New(limit, window), es)
    ensures Admitted(Exec(New(limit, window), es).log, key, window) <= (Lates(New(limit, window), es, key) + 1) * limit
  {
    var l := Lates(New(limit, window), es, key);
    ExecRounds(New(limit, window), es, key, 0);
    AgainIsLimitTimesLates(New(limit, window), es, key);
    assert (l + 1) * limit == l * limit + limit;
  }

  function AdmittedIn(log: seq<Entry>, lo: int, hi: int): nat {
    if log == [] then 0
    else AdmittedIn(log[..|log| - 1], lo, hi)
         + if lo <= log[|log| - 1].tRead < hi && log[|log| - 1].admitted then 1 else 0
  }

  /** Admissions over `n` aligned windows from window number `i` on. */
  function AdmittedOver(log: seq<Entry>, i: int, n: nat, window: int): nat
    requires window > 0
  {
    if n == 0 then 0
    else AdmittedOver(log, i, n - 1, window) + Admitted(log, (i + n - 1) * window, window)
  }

  lemma {:induction false} AdmittedOverSnoc(log: seq<Entry>, e: Entry, i: int, n: nat, window: int)
    requires window > 0
    ensures AdmittedOver(log + [e], i, n, window)
         >= AdmittedOver(log, i, n, window)
            + if e.admitted && exists j :: i <= j < i + n && WindowStart(e.tRead, window) == j * window then 1 else 0
  {
    if n > 0 {
      assert (log + [e])[..|log|] == log;
      AdmittedOverSnoc(log, e, i, n - 1, window);
    }
  }

  lemma {:induction false} WindowNumber(t: int, window: int)
    requires window > 0
    ensures WindowStart(t, window) == (t / 1000 / window) * window
  {
  }

  /** A moment within `k` windows of `a` lies in one of `k + 1` aligned windows. */
  lemma {:induction false} WindowsOfInterval(a: int, k: nat, window: int, t: int)
    requires window > 0 && a <= t < a + 1000 * (k * window)
    ensures a / 1000 / window <= t / 1000 / window <= a / 1000 / window + k
  {
    DivMonotone(a, t, 1000);
    DivMonotone(a / 1000, t / 1000, window);
    DivMonotone(t, a + (k * window) * 1000, 1000);
    DivShift(a, k * window, 1000);
    DivMonotone(t / 1000, a / 1000 + k * window, window);
    DivShift(a / 1000, k, window);
  }

  lemma {:induction false} IntervalWithinWindows(log: seq<Entry>, a: int, k: nat, window: int)
    requires window > 0
    ensures AdmittedIn(log, a, a + 1000 * (k * window)) <= AdmittedOver(log, a / 1000 / window, k + 1, window)
    decreases |log|
  {
    if log != [] {
      var e, rest := log[|log| - 1], log[..|log| - 1];
      assert log == rest + [e];
      IntervalWithinWindows(rest, a, k, window);
      AdmittedOverSnoc(rest, e, a / 1000 / window, k + 1, window);
      if a <= e.tRead < a + 1000 * (k * window) {
        WindowsOfInterval(a, k, window, e.tRead);
        WindowNumber(e.tRead, window);
        var j := e.tRead / 1000 / window;
        assert WindowStart(e.tRead, window) == j * window;
      }
    }
  }

  lemma {:induction false} AdmittedOverBound(log: seq<Entry>, i: int, n: nat, window: int, limit: nat)
    requires window > 0 && forall key :: Admitted(log, key, window) <= limit
    ensures AdmittedOver(log, i, n, window) <= n * limit
  {
    if n > 0 {
      AdmittedOverBound(log, i, n - 1, window, limit);
      assert n * limit == (n - 1) * limit + limit;
      assert Admitted(log, (i + n - 1) * window, window) <= limit;
    }
  }

  /** Any stretch of `k` windows' length, however it lies, admits at most (k + 1) * limit:
      twice the limit in any one window's length. */
  lemma {:induction false} IntervalAdmits(limit: nat, window: int, es: seq<Event>, a: int, k: nat)
    requires window > 0 && Trace(New(limit, window), es) && NeverLate(New(limit, window), es)
    ensures AdmittedIn(Exec(New(limit, window), es).log, a, a + 1000 * (k * window)) <= (k + 1) * limit
  {
    var log := Exec(New(limit, window), es).log;
    forall key ensures Admitted(log, key, window) <= limit {
      WindowAdmitsLimit(limit, window, es, key, 0);
    }
    IntervalWithinWindows(log, a, k, window);
    AdmittedOverBound(log, a / 1000 / window, k + 1, window, limit);
  }

  /** Admissions by the time of their INCR. */
  function CountedIn(log: seq<Entry>, lo: int, hi: int): nat {
    if log == [] then 0
    else CountedIn(log[..|log| - 1], lo, hi)
         + if lo <= log[|log| - 1].time < hi && log[|log| - 1].admitted then 1 else 0
  }

  /** Each INCR follows its clock reading by at most `delay` ms. */
  ghost predicate Within(s: Limiter, delay: int) {
    forall i | 0 <= i < |s.log| :: s.log[i].tRead <= s.log[i].time <= s.log[i].tRead + delay
  }

  lemma {:induction false} CountedAsRead(log: seq<Entry>, lo: int, hi: int, delay: nat)
    requires forall i | 0 <= i < |log| :: log[i].tRead <= log[i].time <= log[i].tRead + delay
    ensures CountedIn(log, lo, hi) <= AdmittedIn(log, lo - delay, hi)
  {
    if log != [] {
      CountedAsRead(log[..|log| - 1], lo, hi, delay);
    }
  }

  /** By the time of the INCR instead of the clock reading: if each INCR comes within `d` windows'
      length of its reading, k windows' length sees at most (k + d + 1) * limit. */
  lemma {:induction false} IntervalCounts(limit: nat, window: int, es: seq<Event>, a: int, k: nat, d: nat)
    requires window > 0 && Trace(New(limit, window), es) && NeverLate(New(limit, window), es)
    requires Within(Exec(New(limit, window), es), 1000 * (d * window))
    ensures CountedIn(Exec(New(limit, window), es).log, a, a + 1000 * (k * window)) <= (k + d + 1) * limit
  {
    var log := Exec(New(limit, window), es).log;
    assert d * window >= 0;
    CountedAsRead(log, a, a + 1000 * (k * window), 1000 * (d * window));
    assert (k + d) * window == k * window + d * window;
    IntervalAdmits(limit, window, es, a - 1000 * (d * window), k + d);
  }

  // ---------------------------------------------------------------- not a sliding window

  function Hits(t: int, n: nat): seq<Event> {
    if n == 0 then [] else [Hit(t, t)] + Hits(t, n - 1)
  }

  function Passed(t: int, n: nat): seq<Entry> {
    if n == 0 then [] else [Entry(t, t, true)] + Passed(t, n - 1)
  }

  /** As many requests at one moment as the window has left are all admitted. */
  lemma {:induction false} BurstPasses(s: Limiter, t: int, n: nat)
    requires s.window > 0 && 0 <= t && s.clock <= t
    requires var key := WindowStart(t, s.window); key in s.keys ==> s.keys[key].expiresAt.None?
    requires 0 <= CountOf(s, WindowStart(t, s.window)) <= s.limit - n
    ensures Trace(s, Hits(t, n))
    ensures var s' := Exec(s, Hits(t, n));
            && s'.log == s.log + Passed(t, n) && s'.clock <= t && s'.window == s.window && s'.limit == s.limit
            && forall key | key != WindowStart(t, s.window) :: (key in s'.keys <==> key in s.keys)
    decreases n
  {
    if n > 0 {
      assert Hits(t, n)[1..] == Hits(t, n - 1);
      BurstPasses(Next(s, Hit(t, t)), t, n - 1);
      assert [Entry(t, t, true)] + Passed(t, n - 1) == Passed(t, n);
    }
  }

  lemma {:induction false} PassedIn(log: seq<Entry>, t: int, n: nat, lo: int, hi: int)
    requires lo <= t < hi
    ensures AdmittedIn(log + Passed(t, n), lo, hi) == AdmittedIn(log, lo, hi) + n
    decreases n
  {
    if n == 0 {
      assert log + Passed(t, 0) == log;
    } else {
      assert (log + [Entry(t, t, true)])[..|log|] == log;
      assert log + Passed(t, n) == (log + [Entry(t, t, true)]) + Passed(t, n - 1);
      PassedIn(log + [Entry(t, t, true)], t, n - 1, lo, hi);
    }
  }

  lemma {:induction false} TraceJoined(s: Limiter, es: seq<Event>, es': seq<Event>)
    requires Trace(s, es) && Trace(Exec(s, es), es')
    ensures Trace(s, es + es') && Exec(s, es + es') == Exec(Exec(s, es), es')
    decreases |es|
  {
    if es == [] {
      assert [] + es' == es';
    } else {
      assert (es + es')[1..] == es[1..] + es';
      TraceJoined(Next(s, es[0]), es[1..], es');
    }
  }

  lemma {:induction false} HitsArePrompt(t: int, n: nat, window: int)
    requires window > 0 && t >= 0
    ensures Prompt(Hits(t, n), window)
  {
    if n > 0 {
      HitsArePrompt(t, n - 1, window);
      WindowBounds(t, window);
    }
  }

  /** `n` requests in the last millisecond of window number `q` and `m` in the first of the next. */
  lemma {:induction false} Straddle(limit: nat, window: int, q: nat, n: nat, m: nat) returns (es: seq<Event>)
    requires window > 0 && n <= limit && m <= limit
    ensures Trace(New(limit, window), es) && Prompt(es, window)
    ensures var b := 1000 * ((q + 1) * window);
            Exec(New(limit, window), es).log == Passed(b - 1, n) + Passed(b, m)
  {
    var b := 1000 * ((q + 1) * window);
    assert b >= 1000 by { MulAtLeast(q + 1, window); }
    var first, second := Hits(b - 1, n), Hits(b, m);
    AlignedStart(q + 1, window);
    BurstPasses(New(limit, window), b - 1, n);
    var s1 := Exec(New(limit, window), first);
    BurstPasses(s1, b, m);
    TraceJoined(New(limit, window), first, second);
    es := first + second;
    HitsArePrompt(b - 1, n, window);
    HitsArePrompt(b, m, window);
    assert [] + Passed(b - 1, n) == Passed(b - 1, n);
  }

  /** The first moment of an aligned window is its start; the moment before is in another window. */
  lemma {:induction false} AlignedStart(q: int, window: int)
    requires window > 0
    ensures WindowStart(1000 * (q * window), window) == q * window
    ensures WindowStart(1000 * (q * window) - 1, window) != q * window
  {
    InWindow(1000 * (q * window), q, window);
    DivAtLeast(1000 * (q * window) - 1, q * window, 1000);
    var now := (1000 * (q * window) - 1) / 1000;
    assert now < q * window;
    assert now - now % window <= now;
  }

  lemma {:induction false} InWindow(t: int, q: int, window: int)
    requires window > 0 && 1000 * (q * window) <= t < 1000 * (q * window) + 1000 * window
    ensures WindowStart(t, window) == q * window
  {
    var now := t / 1000;
    assert q * window <= now < q * window + window;
    assert (q + 1) * window == q * window + window;
    DivAtLeast(now, q, window);
    DivAtLeast(now, q + 1, window);
    WindowNumber(t, window);
  }

  lemma {:induction false} WithinOneWindow(log: seq<Entry>, q: int, window: int)
    requires window > 0
    ensures AdmittedIn(log, 1000 * (q * window), 1000 * (q * window) + 1000 * window) <= Admitted(log, q * window, window)
  {
    if log != [] {
      WithinOneWindow(log[..|log| - 1], q, window);
      var t := log[|log| - 1].tRead;
      if 1000 * (q * window) <= t < 1000 * (q * window) + 1000 * window {
        InWindow(t, q, window);
      }
    }
  }

  /** No prompt run lets through more than the limit in the window's length from `a` on. */
  ghost predicate SlidesAt(limit: nat, window: int, a: int)
    requires window > 0
  {
    forall es | Trace(New(limit, window), es) && Prompt(es, window) ::
      AdmittedIn(Exec(New(limit, window), es).log, a, a + 1000 * window) <= limit
  }

  lemma {:induction false} AlignedHolds(limit: nat, window: int, q: nat)
    requires window > 0
    ensures SlidesAt(limit, window, 1000 * (q * window))
  {
    var a := 1000 * (q * window);
    forall es | Trace(New(limit, window), es) && Prompt(es, window)
      ensures AdmittedIn(Exec(New(limit, window), es).log, a, a + 1000 * window) <= limit
    {
      PromptIsNeverLate(limit, window, es);
      WindowAdmitsLimit(limit, window, es, q * window, 0);
      WithinOneWindow(Exec(New(limit, window), es).log, q, window);
    }
  }

  lemma {:induction false} StraddleCount(n: nat, m: nat, b: int, lo: int, hi: int)
    requires lo <= b - 1 < b < hi
    ensures AdmittedIn(Passed(b - 1, n) + Passed(b, m), lo, hi) == n + m
  {
    PassedIn(Passed(b - 1, n), b, m, lo, hi);
    PassedIn([], b - 1, n, lo, hi);
    assert [] + Passed(b - 1, n) == Passed(b - 1, n);
  }

  lemma {:induction false} NextBoundary(a: nat, window: int) returns (q: nat, b: int)
    requires window > 0 && forall q: nat :: a != 1000 * (q * window)
    ensures b == 1000 * ((q + 1) * window) && a < b < a + 1000 * window
  {
    DivAtLeast(a, 0, 1000 * window);
    q := a / (1000 * window);
    b := 1000 * ((q + 1) * window);
    assert q * (1000 * window) == 1000 * (q * window) && (q + 1) * window == q * window + window;
    assert a == q * (1000 * window) + a % (1000 * window);
  }

  /** A run that lets through one more than the limit from `a` on, with a boundary inside. */
  lemma {:induction false} Exceeding(limit: nat, window: int, a: nat, q: nat) returns (es: seq<Event>)
    requires window > 0 && limit >= 1 && a < 1000 * ((q + 1) * window) < a + 1000 * window
    ensures Trace(New(limit, window), es) && Prompt(es, window)
    ensures AdmittedIn(Exec(New(limit, window), es).log, a, a + 1000 * window) == limit + 1
  {
    es := Straddle(limit, window, q, limit, 1);
    StraddleCount(limit, 1, 1000 * ((q + 1) * window), a, a + 1000 * window);
  }

  lemma {:induction false} UnalignedFails(limit: nat, window: int, a: nat)
    requires window > 0 && limit >= 1 && forall q: nat :: a != 1000 * (q * window)
    ensures !SlidesAt(limit, window, a)
  {
    var q: nat, b := NextBoundary(a, window);
    var es := Exceeding(limit, window, a, q);
  }

  /** The window slides nowhere: for every limit and window length, the limit holds for the stretch
      of that length from `a` on if and only if `a` is the start of an aligned window. */
  lemma {:induction false} SlidesIffAligned(limit: nat, window: int, a: nat)
    requires window > 0 && limit >= 1
    ensures SlidesAt(limit, window, a) <==> exists q: nat :: a == 1000 * (q * window)
  {
    if q: nat :| a == 1000 * (q * window) {
      AlignedHolds(limit, window, q);
    } else {
      UnalignedFails(limit, window, a);
    }
  }

  /** The bound of IntervalAdmits is attained: for every limit and window length, twice the limit
      passes within two milliseconds. */
  lemma {:induction false} TwiceTheLimit(limit: nat, window: int, q: nat) returns (es: seq<Event>)
    requires window > 0
    ensures Trace(New(limit, window), es) && Prompt(es, window)
    ensures var b := 1000 * ((q + 1) * window);
            AdmittedIn(Exec(New(limit, window), es).log, b - 1, b + 1) == 2 * limit
  {
    var b := 1000 * ((q + 1) * window);
    es := Straddle(limit, window, q, limit, limit);
    StraddleCount(limit, limit, b, b - 1, b + 1);
  }
}
