/** The limiter of sensitive endpoints: one counter per identifier, whose window opens with the
    request that finds no counter. */
module EndpointLimit {
  import opened Optional
  import opened ExpiringKeys

  datatype Event = Hit(now: int) | SetExpiry(now: int)

  /** A request: when it was counted, in which window, and whether it was let through. */
  datatype Entry = Entry(time: int, epoch: nat, admitted: bool)

  /** One identifier's counter, whether its EXPIRE is still to come, and the history: when each
      window opens, the last EXPIRE since then, and every request. */
  datatype Limiter = Limiter(max: nat, window: nat, keys: Keys<(), int>, pending: bool,
                             clock: int, opens: seq<int>, expired: Option<int>, log: seq<Entry>)

  predicate Legal(s: Limiter, e: Event) {
    s.clock <= e.now && (e.SetExpiry? ==> s.pending)
  }

  function Next(s: Limiter, e: Event): Limiter {
    match e
    case Hit(now) =>
      var (keys, count) := IncrBy(s.keys, (), 1, now);
      var opens := if count == 1 then s.opens + [now] else s.opens;
      var epoch: nat := if opens == [] then 0 else |opens| - 1;
      s.(keys := keys, pending := s.pending || count == 1, clock := now, opens := opens,
         expired := if count == 1 then None else s.expired,
         log := s.log + [Entry(now, epoch, count <= s.max)])
    case SetExpiry(now) =>
      s.(keys := Expire(s.keys, (), s.window, now), pending := false, clock := now, expired := Some(now))
  }

  predicate Trace(s: Limiter, es: seq<Event>)
    decreases |es|
  {
    es == [] || (Legal(s, es[0]) && Trace(Next(s, es[0]), es[1..]))
  }

  function Exec(s: Limiter, es: seq<Event>): Limiter
    decreases |es|
  {
    if es == [] then s else Exec(Next(s, es[0]), es[1..])
  }

  function New(max: nat, window: nat): Limiter { Limiter(max, window, map[], false, 0, [], None, []) }

  function Count(log: seq<Entry>, epoch: nat): nat {
    if log == [] then 0
    else Count(log[..|log| - 1], epoch) + if log[|log| - 1].epoch == epoch then 1 else 0
  }

  function Admitted(log: seq<Entry>, epoch: nat): nat {
    if log == [] then 0
    else Admitted(log[..|log| - 1], epoch)
         + if log[|log| - 1].epoch == epoch && log[|log| - 1].admitted then 1 else 0
  }

  ghost predicate EpochOk(s: Limiter, epoch: nat) {
    && Admitted(s.log, epoch) == (if Count(s.log, epoch) <= s.max then Count(s.log, epoch) else s.max)
    && (epoch >= |s.opens| ==> Count(s.log, epoch) == 0)
    && (epoch + 1 == |s.opens| ==> () in s.keys && Count(s.log, epoch) == s.keys[()].value)
  }

  /** The current counter outlives its window's opening by the window's length, and a window
      opens only when the counter before it has gone. */
  ghost predicate WindowsOk(s: Limiter) {
    && (s.opens == [] <==> () !in s.keys)
    && (() in s.keys ==> s.keys[()].value >= 1)
    && (s.pending ==> () in s.keys && s.keys[()].expiresAt.None?)
    && (s.opens != [] ==>
          && (s.keys[()].expiresAt == if s.expired.Some? then Some(s.expired.value + 1000 * s.window) else None)
          && (s.expired.Some? ==> s.opens[|s.opens| - 1] <= s.expired.value))
    && (forall g | 0 <= g < |s.opens| :: s.opens[g] <= s.clock)
    && (forall g | 0 <= g < |s.opens| - 1 :: s.opens[g + 1] > s.opens[g] + 1000 * s.window)
  }

  ghost predicate EntryOk(s: Limiter, e: Entry) {
    && e.epoch < |s.opens| && s.opens[e.epoch] <= e.time <= s.clock
    && (e.epoch + 1 < |s.opens| ==> e.time <= s.opens[e.epoch + 1])
  }

  ghost predicate LimiterOk(s: Limiter) {
    && WindowsOk(s)
    && (forall epoch: nat :: EpochOk(s, epoch))
    && (forall i | 0 <= i < |s.log| :: EntryOk(s, s.log[i]))
  }

  lemma {:induction false} NextWindowsOk(s: Limiter, e: Event)
    requires WindowsOk(s) && Legal(s, e)
    ensures WindowsOk(Next(s, e))
  {
  }

  lemma {:induction false} NextEpochOk(s: Limiter, e: Event, epoch: nat)
    requires WindowsOk(s) && Legal(s, e) && EpochOk(s, epoch)
    requires s.opens != [] ==> EpochOk(s, |s.opens| - 1)
    ensures EpochOk(Next(s, e), epoch)
  {
    if e.Hit? {
      assert Next(s, e).log[..|s.log|] == s.log;
    }
  }

  lemma {:induction false} NextEntryOk(s: Limiter, e: Event)
    requires LimiterOk(s) && Legal(s, e)
    ensures forall i | 0 <= i < |Next(s, e).log| :: EntryOk(Next(s, e), Next(s, e).log[i])
  {
    forall i | 0 <= i < |Next(s, e).log| ensures EntryOk(Next(s, e), Next(s, e).log[i]) {
      if i < |s.log| {
        assert EntryOk(s, s.log[i]);
      }
    }
  }

  lemma {:induction false} ExecOk(s: Limiter, es: seq<Event>)
    requires LimiterOk(s) && Trace(s, es)
    ensures LimiterOk(Exec(s, es)) && Exec(s, es).window == s.window && Exec(s, es).max == s.max
    decreases |es|
  {
    if es != [] {
      NextWindowsOk(s, es[0]);
      forall epoch: nat ensures EpochOk(Next(s, es[0]), epoch) {
        assert EpochOk(s, epoch);
        NextEpochOk(s, es[0], epoch);
      }
      NextEntryOk(s, es[0]);
      ExecOk(Next(s, es[0]), es[1..]);
    }
  }

  function AdmittedIn(log: seq<Entry>, lo: int, hi: int): nat {
    if log == [] then 0
    else AdmittedIn(log[..|log| - 1], lo, hi)
         + if lo <= log[|log| - 1].time <= hi && log[|log| - 1].admitted then 1 else 0
  }

  lemma {:induction false} IntervalSpansTwo(s: Limiter, log: seq<Entry>, a: int, g: nat)
    requires WindowsOk(s) && forall i | 0 <= i < |log| :: EntryOk(s, log[i])
    requires forall i | 0 <= i < |log| && a <= log[i].time <= a + 1000 * s.window ::
               log[i].epoch == g || log[i].epoch == g + 1
    ensures AdmittedIn(log, a, a + 1000 * s.window) <= Admitted(log, g) + Admitted(log, g + 1)
    decreases |log|
  {
    if log != [] {
      assert forall i | 0 <= i < |log| - 1 :: log[..|log| - 1][i] == log[i];
      assert log[|log| - 1] == log[|log| - 1];
      IntervalSpansTwo(s, log[..|log| - 1], a, g);
    }
  }

  /** Two requests within one window's length are in the same window or the next. */
  lemma {:induction false} NearbyEpochs(s: Limiter, e: Entry, f: Entry, a: int)
    requires WindowsOk(s) && EntryOk(s, e) && EntryOk(s, f)
    requires a <= e.time <= a + 1000 * s.window && a <= f.time <= a + 1000 * s.window
    ensures f.epoch <= e.epoch + 1
  {
    if f.epoch > e.epoch + 1 {
      assert s.opens[e.epoch + 1 + 1] > s.opens[e.epoch + 1] + 1000 * s.window;
      OpenedIncreases(s, e.epoch + 2, f.epoch);
    }
  }

  lemma {:induction false} OpenedIncreases(s: Limiter, g: nat, h: nat)
    requires WindowsOk(s) && g <= h < |s.opens|
    ensures s.opens[g] <= s.opens[h]
    decreases h - g
  {
    if g < h {
      OpenedIncreases(s, g, h - 1);
      assert s.opens[h - 1 + 1] > s.opens[h - 1] + 1000 * s.window;
    }
  }

  ghost function LeastEpoch(s: Limiter, log: seq<Entry>, a: int): nat
    decreases |log|
  {
    if log == [] then |s.opens|
    else
      var rest := LeastEpoch(s, log[..|log| - 1], a);
      var e := log[|log| - 1];
      if a <= e.time <= a + 1000 * s.window && e.epoch < rest then e.epoch else rest
  }

  lemma {:induction false} LeastEpochIsLeast(s: Limiter, log: seq<Entry>, a: int)
    requires forall i | 0 <= i < |log| :: EntryOk(s, log[i])
    ensures var g := LeastEpoch(s, log, a);
            && (forall i | 0 <= i < |log| && a <= log[i].time <= a + 1000 * s.window :: g <= log[i].epoch)
            && (g < |s.opens| ==>
                  exists i :: 0 <= i < |log| && a <= log[i].time <= a + 1000 * s.window && log[i].epoch == g)
            && g <= |s.opens|
    decreases |log|
  {
    if log != [] {
      var rest := log[..|log| - 1];
      assert forall i | 0 <= i < |rest| :: rest[i] == log[i];
      assert EntryOk(s, log[|log| - 1]);
      LeastEpochIsLeast(s, rest, a);
      if LeastEpoch(s, log, a) == LeastEpoch(s, rest, a) < |s.opens| {
        var i :| 0 <= i < |rest| && a <= rest[i].time <= a + 1000 * s.window && rest[i].epoch == LeastEpoch(s, rest, a);
        assert log[i] == rest[i];
      }
    }
  }

  lemma {:induction false} InTwoEpochs(s: Limiter, a: int, g: nat)
    requires LimiterOk(s) && g == LeastEpoch(s, s.log, a)
    ensures forall i | 0 <= i < |s.log| && a <= s.log[i].time <= a + 1000 * s.window ::
              s.log[i].epoch == g || s.log[i].epoch == g + 1
  {
    LeastEpochIsLeast(s, s.log, a);
    forall i | 0 <= i < |s.log| && a <= s.log[i].time <= a + 1000 * s.window
      ensures s.log[i].epoch == g || s.log[i].epoch == g + 1
    {
      assert EntryOk(s, s.log[i]);
      var j :| 0 <= j < |s.log| && a <= s.log[j].time <= a + 1000 * s.window && s.log[j].epoch == g;
      NearbyEpochs(s, s.log[j], s.log[i], a);
    }
  }

  lemma {:induction false} EpochBound(s: Limiter, epoch: nat)
    requires LimiterOk(s)
    ensures Admitted(s.log, epoch) <= s.max
  {
    assert EpochOk(s, epoch);
  }

  lemma {:induction false} StretchAdmits(s: Limiter, a: int)
    requires LimiterOk(s)
    ensures AdmittedIn(s.log, a, a + 1000 * s.window) <= 2 * s.max
  {
    var g := LeastEpoch(s, s.log, a);
    InTwoEpochs(s, a, g);
    IntervalSpansTwo(s, s.log, a, g);
    EpochBound(s, g);
    EpochBound(s, g + 1);
  }

  /** However requests fall, no stretch of the window's length, both ends included, lets through
      more than twice the maximum; no single window more than the maximum. */
  lemma {:induction false} EndpointAdmits(max: nat, window: nat, es: seq<Event>, a: int, epoch: nat)
    requires Trace(New(max, window), es)
    ensures AdmittedIn(Exec(New(max, window), es).log, a, a + 1000 * window) <= 2 * max
    ensures Admitted(Exec(New(max, window), es).log, epoch) <= max
  {
    ExecOk(New(max, window), es);
    StretchAdmits(Exec(New(max, window), es), a);
    EpochBound(Exec(New(max, window), es), epoch);
  }

  /** A request at `now` finds no window: there was none, or its length has passed since its EXPIRE. */
  predicate Over(s: Limiter, now: int) {
    s.opens == [] || (s.expired.Some? && now > s.expired.value + 1000 * s.window)
  }

  /** Over every run a request is let through exactly when fewer than the maximum came before it in its
      window, which is the last one opened until that one's length has passed since its EXPIRE, and a
      new one after that. A window whose EXPIRE never comes never ends. */
  lemma {:induction false} AdmittedIff(max: nat, window: nat, es: seq<Event>, now: int)
    requires Trace(New(max, window), es) && Legal(Exec(New(max, window), es), Hit(now))
    ensures var s := Exec(New(max, window), es);
            var s' := Next(s, Hit(now));
            && s'.log[..|s.log|] == s.log && |s'.log| == |s.log| + 1
            && var e := s'.log[|s.log|];
               && e.time == now
               && s'.opens == (if Over(s, now) then s.opens + [now] else s.opens)
               && e.epoch == |s'.opens| - 1
               && (e.admitted <==> (if Over(s, now) then 0 else Count(s.log, e.epoch)) < max)
  {
    ExecOk(New(max, window), es);
    var s := Exec(New(max, window), es);
    if s.opens != [] {
      assert EpochOk(s, |s.opens| - 1);
    }
  }

  /** So once a window's EXPIRE has come and its length has passed, the next request opens a window and
      is let through, if any ever is. */
  lemma {:induction false} OpensAgain(max: nat, window: nat, es: seq<Event>, t: int, now: int)
    requires Trace(New(max, window), es) && Legal(Exec(New(max, window), es), SetExpiry(t)) && t + 1000 * window < now
    ensures var s := Next(Exec(New(max, window), es), SetExpiry(t));
            && Legal(s, Hit(now)) && !Live(s.keys, (), now)
            && Next(s, Hit(now)).opens == s.opens + [now]
            && (Next(s, Hit(now)).log[|s.log|].admitted <==> max >= 1)
  {
    ExecOk(New(max, window), es);
    var s := Exec(New(max, window), es);
    NextWindowsOk(s, SetExpiry(t));
  }
}
