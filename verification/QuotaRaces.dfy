/** The quota engine's commands on one counter when calls overlap: INCRBY, EXPIRE and SET NX are
    separate commands, and decrements and monthly resets fall anywhere between them. */
module QuotaRaces {
  import opened ExpiringKeys
  import opened Optional
  import opened Quota

  /** A command and its time. `SetExpiry` and `Raise` carry the count their call's INCRBY returned. */
  datatype Event =
    | Incr(amount: int, now: int)
    | SetExpiry(count: int, now: int)
    | Raise(count: int, now: int)
    | Decr(amount: int, now: int)
    | Reset(now: int)

  /** The command a call of `enforce` is to issue next. */
  datatype Stage = Expiring(count: int) | Warning(count: int)

  /** An INCRBY with the verdict of its call. */
  datatype Entry = Entry(amount: int, accepted: bool)

  datatype Warned = Warned(count: int, time: int)

  /** The keys, the calls between two commands, the clock, the total counted since the last reset,
      every INCRBY so far and every warning emitted. */
  datatype Race = Race(key: Key, limit: nat, state: State, pending: multiset<Stage>, clock: int,
                       total: int, log: seq<Entry>, warnings: seq<Warned>)

  function New(key: Key, limit: nat): Race {
    Race(key, limit, State(map[], map[]), multiset{}, 0, 0, [], [])
  }

  predicate Accepts(count: int, limit: nat) { !AtLeast(Percentage(count, limit), EXCEEDED) }

  predicate Warns(count: int, limit: nat) {
    Accepts(count, limit) && AtLeast(Percentage(count, limit), WARNING)
  }

  function Warnings(count: int, limit: nat): multiset<Stage> {
    if Warns(count, limit) then multiset{Warning(count)} else multiset{}
  }

  predicate Legal(r: Race, e: Event) {
    && r.clock <= e.now
    && (e.SetExpiry? ==> Expiring(e.count) in r.pending)
    && (e.Raise? ==> Warning(e.count) in r.pending)
  }

  function Next(r: Race, e: Event): Race {
    match e
    case Incr(amount, now) =>
      var (counters, count) := IncrBy(r.state.counters, r.key, amount, now);
      r.(state := r.state.(counters := counters), clock := now, total := r.total + amount,
         pending := r.pending + if count == amount then multiset{Expiring(count)} else Warnings(count, r.limit),
         log := r.log + [Entry(amount, Accepts(count, r.limit))])
    case SetExpiry(count, now) =>
      r.(state := r.state.(counters := Expire(r.state.counters, r.key, MONTH_TTL, now)), clock := now,
         pending := r.pending - multiset{Expiring(count)} + Warnings(count, r.limit))
    case Raise(count, now) =>
      var (flags, raised) := SetNx(r.state.flags, r.key, 1, WARN_TTL, now);
      r.(state := r.state.(flags := flags), clock := now, pending := r.pending - multiset{Warning(count)},
         warnings := if raised then r.warnings + [Warned(count, now)] else r.warnings)
    case Decr(amount, now) =>
      r.(state := r.state.(counters := IncrBy(r.state.counters, r.key, -amount, now).0), clock := now,
         total := r.total - amount)
    case Reset(now) =>
      r.(state := r.state.(counters := Set(r.state.counters, r.key, 0)), clock := now, total := 0)
  }

  predicate Trace(r: Race, es: seq<Event>)
    decreases |es|
  {
    es == [] || (Legal(r, es[0]) && Trace(Next(r, es[0]), es[1..]))
  }

  function Exec(r: Race, es: seq<Event>): Race
    decreases |es|
  {
    if es == [] then r else Exec(Next(r, es[0]), es[1..])
  }

  // ---------------------------------------------------------------- one call on its own

  function Commands(r: Race, amount: int, tIncr: int, tExpire: int, tWarn: int): seq<Event> {
    var count := IncrBy(r.state.counters, r.key, amount, tIncr).1;
    [Incr(amount, tIncr)] + (if count == amount then [SetExpiry(count, tExpire)] else [])
    + if Warns(count, r.limit) then [Raise(count, tWarn)] else []
  }

  /** What a call with this count does after its INCRBY and, if any, EXPIRE. */
  function Ending(r: Race, count: int, tWarn: int): (State, bool) {
    if Warns(count, r.limit) then
      var (flags, raised) := SetNx(r.state.flags, r.key, 1, WARN_TTL, tWarn);
      (r.state.(flags := flags), raised)
    else (r.state, false)
  }

  /** The events take `r` to a race with that state, those stages and that log, with or without one
      more warning. */
  ghost predicate LeadsTo(r: Race, es: seq<Event>, state: State, pending: multiset<Stage>, log: seq<Entry>, warned: bool) {
    var r' := Exec(r, es);
    Trace(r, es) && r'.state == state && r'.pending == pending && r'.log == log
    && |r'.warnings| == |r.warnings| + if warned then 1 else 0
  }

  lemma {:induction false} EndingSolo(r: Race, p: multiset<Stage>, count: int, tWarn: int)
    requires r.clock <= tWarn && r.pending == p + Warnings(count, r.limit)
    ensures LeadsTo(r, if Warns(count, r.limit) then [Raise(count, tWarn)] else [],
                    Ending(r, count, tWarn).0, p, r.log, Ending(r, count, tWarn).1)
  {
    if Warns(count, r.limit) {
      assert [Raise(count, tWarn)][1..] == [];
      assert p + multiset{Warning(count)} - multiset{Warning(count)} == p;
    }
  }

  lemma {:induction false} ExpirySolo(r: Race, p: multiset<Stage>, count: int, tExpire: int, tWarn: int)
    requires r.clock <= tExpire <= tWarn && r.pending == p + multiset{Expiring(count)}
    ensures var r' := Next(r, SetExpiry(count, tExpire));
            LeadsTo(r, [SetExpiry(count, tExpire)] + if Warns(count, r.limit) then [Raise(count, tWarn)] else [],
                    Ending(r', count, tWarn).0, p, r.log, Ending(r', count, tWarn).1)
  {
    var last := if Warns(count, r.limit) then [Raise(count, tWarn)] else [];
    assert ([SetExpiry(count, tExpire)] + last)[1..] == last;
    assert p + multiset{Expiring(count)} - multiset{Expiring(count)} == p;
    EndingSolo(Next(r, SetExpiry(count, tExpire)), p, count, tWarn);
  }

  /** A call whose commands nothing interrupts is the one-step `enforce`. */
  lemma {:induction false} SoloEnforce(r: Race, amount: int, tIncr: int, tExpire: int, tWarn: int)
    requires r.clock <= tIncr <= tExpire <= tWarn
    ensures var (state, outcome) := Enforced(r.state, r.key, r.limit, amount, tIncr, tExpire, tWarn);
            LeadsTo(r, Commands(r, amount, tIncr, tExpire, tWarn), state, r.pending,
                    r.log + [Entry(amount, outcome.Accepted?)], outcome.Accepted? && outcome.warned)
  {
    var count := IncrBy(r.state.counters, r.key, amount, tIncr).1;
    var es := Commands(r, amount, tIncr, tExpire, tWarn);
    var last := if Warns(count, r.limit) then [Raise(count, tWarn)] else [];
    if count == amount {
      assert es[1..] == [SetExpiry(count, tExpire)] + last;
      ExpirySolo(Next(r, Incr(amount, tIncr)), r.pending, count, tExpire, tWarn);
    } else {
      assert es[1..] == last;
      EndingSolo(Next(r, Incr(amount, tIncr)), r.pending, count, tWarn);
    }
  }

  // ---------------------------------------------------------------- what the counter tells

  function ValueOf(m: Keys<Key, int>, k: Key): int { if k in m then m[k].value else 0 }

  predicate Counted(r: Race) { r.total == ValueOf(r.state.counters, r.key) }

  /** The command meets its counter expired while it was not at zero. */
  predicate Forgets(r: Race, e: Event) {
    (e.Incr? || e.Decr?) && ValueOf(r.state.counters, r.key) != 0 && !Live(r.state.counters, r.key, e.now)
  }

  predicate NeverForgets(r: Race, es: seq<Event>)
    decreases |es|
  {
    es == [] || (!Forgets(r, es[0]) && NeverForgets(Next(r, es[0]), es[1..]))
  }

  predicate AlwaysCounted(r: Race, es: seq<Event>)
    decreases |es|
  {
    Counted(r) && (es == [] || AlwaysCounted(Next(r, es[0]), es[1..]))
  }

  lemma {:induction false} GrowsIff(m: Keys<Key, int>, k: Key, amount: int, now: int)
    ensures ValueOf(IncrBy(m, k, amount, now).0, k) == ValueOf(m, k) + amount <==> Live(m, k, now) || ValueOf(m, k) == 0
    ensures IncrBy(m, k, amount, now).1 == ValueOf(IncrBy(m, k, amount, now).0, k)
  {
  }

  lemma {:induction false} NextCountedIff(r: Race, e: Event)
    requires Counted(r)
    ensures Counted(Next(r, e)) <==> !Forgets(r, e)
  {
    match e
    case Incr(amount, now) => GrowsIff(r.state.counters, r.key, amount, now);
    case Decr(amount, now) => GrowsIff(r.state.counters, r.key, -amount, now);
    case _ =>
  }

  lemma {:induction false} CountedFrom(r: Race, es: seq<Event>)
    requires Counted(r)
    ensures AlwaysCounted(r, es) <==> NeverForgets(r, es)
    ensures NeverForgets(r, es) ==> Counted(Exec(r, es))
    decreases |es|
  {
    if es != [] {
      NextCountedIff(r, es[0]);
      if !Forgets(r, es[0]) {
        CountedFrom(Next(r, es[0]), es[1..]);
      }
    }
  }

  /** However calls, decrements and resets interleave, the counter is the total since the last reset
      all along if and only if no command meets it expired. */
  lemma {:induction false} CountsAllIff(key: Key, limit: nat, es: seq<Event>)
    ensures AlwaysCounted(New(key, limit), es) <==> NeverForgets(New(key, limit), es)
  {
    CountedFrom(New(key, limit), es);
  }

  ghost predicate OutlastsMonth(r: Race, start: int) {
    && r.clock >= start
    && (r.key in r.state.counters && r.state.counters[r.key].expiresAt.Some? ==>
          r.state.counters[r.key].expiresAt.value >= start + 1000 * MONTH_TTL)
  }

  lemma {:induction false} PromptFrom(r: Race, es: seq<Event>, start: int)
    requires OutlastsMonth(r, start) && Trace(r, es)
    requires forall i | 0 <= i < |es| :: es[i].now <= start + 1000 * MONTH_TTL
    ensures NeverForgets(r, es)
    decreases |es|
  {
    if es != [] {
      assert forall i | 0 <= i < |es| - 1 :: es[1..][i] == es[i + 1];
      assert OutlastsMonth(Next(r, es[0]), start);
      PromptFrom(Next(r, es[0]), es[1..], start);
    }
  }

  /** Over a month of commands, 35 days from the first one, none ever meets the counter expired. */
  lemma {:induction false} PromptNeverForgets(key: Key, limit: nat, es: seq<Event>)
    requires Trace(New(key, limit), es)
    requires forall i | 0 <= i < |es| :: es[i].now <= es[0].now + 35 * 24 * 60 * 60 * 1000
    ensures NeverForgets(New(key, limit), es)
  {
    if es != [] {
      assert forall i | 0 <= i < |es| - 1 :: es[1..][i] == es[i + 1];
      PromptFrom(Next(New(key, limit), es[0]), es[1..], es[0].now);
    }
  }

  // ---------------------------------------------------------------- verdicts

  /** A call is accepted exactly when the total, its own amount and those of every call that came
      before its INCRBY included, is below 99.5% of the limit. */
  lemma {:induction false} AcceptedIff(key: Key, limit: nat, es: seq<Event>, amount: int, now: int)
    requires limit > 0 && NeverForgets(New(key, limit), es)
    requires !Forgets(Exec(New(key, limit), es), Incr(amount, now))
    ensures var r := Exec(New(key, limit), es);
            Next(r, Incr(amount, now)).log == r.log + [Entry(amount, 200 * (r.total + amount) < 199 * limit)]
  {
    CountedFrom(New(key, limit), es);
    ExecSame(New(key, limit), es);
    GrowsIff(Exec(New(key, limit), es).state.counters, key, amount, now);
    ThresholdIff(Exec(New(key, limit), es).total + amount, limit);
  }

  lemma {:induction false} ExecSame(r: Race, es: seq<Event>)
    ensures Exec(r, es).key == r.key && Exec(r, es).limit == r.limit
    decreases |es|
  {
    if es != [] {
      ExecSame(Next(r, es[0]), es[1..]);
    }
  }

  /** What the first `n` calls asked for, and what they were admitted for. */
  function Asked(log: seq<Entry>, n: nat): int
    requires n <= |log|
  {
    if n == 0 then 0 else Asked(log, n - 1) + log[n - 1].amount
  }

  function Admitted(log: seq<Entry>, n: nat): int
    requires n <= |log|
  {
    if n == 0 then 0 else Admitted(log, n - 1) + if log[n - 1].accepted then log[n - 1].amount else 0
  }

  /** Calls with positive amounts, and neither decrements nor resets. */
  predicate OnlyPositive(es: seq<Event>) {
    forall i | 0 <= i < |es| :: (es[i].Incr? ==> es[i].amount > 0) && !es[i].Decr? && !es[i].Reset?
  }

  /** Each call's verdict is that of everything asked for up to it. */
  ghost predicate PrefixVerdicts(log: seq<Entry>, limit: nat) {
    forall i | 0 <= i < |log| :: log[i].amount > 0 && (log[i].accepted <==> 200 * Asked(log, i + 1) < 199 * limit)
  }

  ghost predicate LogOk(r: Race) {
    r.limit > 0 && Counted(r) && r.total == Asked(r.log, |r.log|) && PrefixVerdicts(r.log, r.limit)
  }

  lemma {:induction false} AskedStable(log: seq<Entry>, e: Entry, n: nat)
    requires n <= |log|
    ensures Asked(log + [e], n) == Asked(log, n)
  {
    if n > 0 {
      AskedStable(log, e, n - 1);
    }
  }

  lemma {:induction false} OneMoreVerdict(log: seq<Entry>, limit: nat, e: Entry)
    requires PrefixVerdicts(log, limit) && e.amount > 0
    requires e.accepted <==> 200 * (Asked(log, |log|) + e.amount) < 199 * limit
    ensures PrefixVerdicts(log + [e], limit) && Asked(log + [e], |log| + 1) == Asked(log, |log|) + e.amount
  {
    AskedStable(log, e, |log|);
    forall i | 0 <= i < |log| ensures (log + [e])[i] == log[i] && Asked(log + [e], i + 1) == Asked(log, i + 1) {
      AskedStable(log, e, i + 1);
    }
  }

  lemma {:induction false} IncrLogOk(r: Race, amount: int, now: int)
    requires LogOk(r) && amount > 0 && !Forgets(r, Incr(amount, now))
    ensures LogOk(Next(r, Incr(amount, now)))
  {
    GrowsIff(r.state.counters, r.key, amount, now);
    ThresholdIff(r.total + amount, r.limit);
    OneMoreVerdict(r.log, r.limit, Entry(amount, 200 * (r.total + amount) < 199 * r.limit));
  }

  lemma {:induction false} ExecLogOk(r: Race, es: seq<Event>)
    requires LogOk(r) && OnlyPositive(es) && NeverForgets(r, es)
    ensures LogOk(Exec(r, es))
    decreases |es|
  {
    if es != [] {
      if es[0].Incr? {
        IncrLogOk(r, es[0].amount, es[0].now);
      }
      assert forall i | 0 <= i < |es| - 1 :: es[1..][i] == es[i + 1];
      ExecLogOk(Next(r, es[0]), es[1..]);
    }
  }

  lemma {:induction false} AskedGrows(log: seq<Entry>, i: nat, j: nat)
    requires i <= j <= |log| && forall k | 0 <= k < |log| :: log[k].amount > 0
    ensures Asked(log, i) <= Asked(log, j)
    decreases j
  {
    if i < j {
      AskedGrows(log, i, j - 1);
    }
  }

  /** Up to the first rejection all is admitted, and then nothing more. */
  lemma {:induction false} AdmittedBelow(log: seq<Entry>, limit: nat, n: nat)
    requires limit > 0 && PrefixVerdicts(log, limit) && n <= |log|
    ensures Admitted(log, n) <= Asked(log, n) && 200 * Admitted(log, n) < 199 * limit
    ensures n == 0 || log[n - 1].accepted ==> Admitted(log, n) == Asked(log, n)
  {
    if n > 0 {
      AdmittedBelow(log, limit, n - 1);
      AskedGrows(log, n - 1, n);
    }
  }

  lemma {:induction false} RejectionsLast(log: seq<Entry>, limit: nat)
    requires PrefixVerdicts(log, limit)
    ensures forall i, j | 0 <= i < j < |log| && !log[i].accepted :: !log[j].accepted
  {
    forall i, j | 0 <= i < j < |log| && !log[i].accepted ensures !log[j].accepted {
      AskedGrows(log, i + 1, j + 1);
    }
  }

  /** Overlapping calls with positive amounts: what is accepted stays below the limit, and a rejected
      call is followed by rejected calls only. */
  lemma {:induction false} NeverOversold(key: Key, limit: nat, es: seq<Event>)
    requires limit > 0 && OnlyPositive(es) && NeverForgets(New(key, limit), es)
    ensures var log := Exec(New(key, limit), es).log;
            && Admitted(log, |log|) < limit
            && PrefixVerdicts(log, limit)
            && (forall i, j | 0 <= i < j < |log| && !log[i].accepted :: !log[j].accepted)
  {
    ExecLogOk(New(key, limit), es);
    ExecSame(New(key, limit), es);
    AdmittedBelow(Exec(New(key, limit), es).log, limit, |Exec(New(key, limit), es).log|);
    RejectionsLast(Exec(New(key, limit), es).log, limit);
  }

  // ---------------------------------------------------------------- warnings

  ghost predicate Spaced(w: seq<Warned>) {
    forall i, j | 0 <= i < j < |w| :: w[j].time > w[i].time + 1000 * WARN_TTL
  }

  /** The flag lives for a day from the last warning. */
  ghost predicate FlagOk(r: Race) {
    && (r.warnings == [] <==> r.key !in r.state.flags)
    && (r.warnings != [] ==>
          r.state.flags[r.key].expiresAt == Some(r.warnings[|r.warnings| - 1].time + 1000 * WARN_TTL))
    && Spaced(r.warnings)
  }

  predicate Warnable(count: int, limit: nat) { 159 * limit <= 200 * count < 199 * limit }

  ghost predicate CountsOk(r: Race) {
    && (forall c | Warning(c) in r.pending :: Warnable(c, r.limit))
    && (forall i | 0 <= i < |r.warnings| :: Warnable(r.warnings[i].count, r.limit))
  }

  lemma {:induction false} RaiseFlagOk(r: Race, count: int, now: int)
    requires FlagOk(r) && r.clock <= now
    ensures FlagOk(Next(r, Raise(count, now)))
  {
  }

  lemma {:induction false} WarningsWarnable(count: int, limit: nat)
    requires limit > 0
    ensures forall s | s in Warnings(count, limit) :: s.Warning? && Warnable(s.count, limit)
  {
    ThresholdIff(count, limit);
  }

  lemma {:induction false} NextCountsOk(r: Race, e: Event)
    requires r.limit > 0 && CountsOk(r) && Legal(r, e)
    ensures CountsOk(Next(r, e))
  {
    match e
    case Incr(amount, now) => WarningsWarnable(IncrBy(r.state.counters, r.key, amount, now).1, r.limit);
    case SetExpiry(count, _) => WarningsWarnable(count, r.limit);
    case _ =>
  }

  lemma {:induction false} ExecWarningsOk(r: Race, es: seq<Event>)
    requires r.limit > 0 && FlagOk(r) && CountsOk(r) && Trace(r, es)
    ensures FlagOk(Exec(r, es)) && CountsOk(Exec(r, es))
    decreases |es|
  {
    if es != [] {
      if es[0].Raise? {
        RaiseFlagOk(r, es[0].count, es[0].now);
      }
      NextCountsOk(r, es[0]);
      ExecWarningsOk(Next(r, es[0]), es[1..]);
    }
  }

  /** Stays silent exactly within a day of some warning. */
  lemma {:induction false} SilentIff(r: Race, count: int, now: int)
    requires FlagOk(r)
    ensures Next(r, Raise(count, now)).warnings == r.warnings
            <==> exists i | 0 <= i < |r.warnings| :: now <= r.warnings[i].time + 1000 * WARN_TTL
  {
    var last := |r.warnings| - 1;
    if last >= 0 {
      assert forall i | 0 <= i < last :: r.warnings[last].time > r.warnings[i].time;
      assert Live(r.state.flags, r.key, now) <==> now <= r.warnings[last].time + 1000 * WARN_TTL;
    }
  }

  /** Over every interleaving, expired counters included, warnings are more than 24 hours apart and
      for counts from 79.5% up to, not including, 99.5% of the limit; and a call about to warn stays
      silent exactly when some warning is at most 24 hours old. */
  lemma {:induction false} WarningsSpaced(key: Key, limit: nat, es: seq<Event>, count: int, now: int)
    requires limit > 0 && Trace(New(key, limit), es) && Legal(Exec(New(key, limit), es), Raise(count, now))
    ensures var r := Exec(New(key, limit), es);
            var w := r.warnings;
            && Spaced(w) && (forall i | 0 <= i < |w| :: Warnable(w[i].count, limit))
            && (Next(r, Raise(count, now)).warnings == w
                <==> exists i | 0 <= i < |w| :: now <= w[i].time + 24 * 60 * 60 * 1000)
  {
    ExecWarningsOk(New(key, limit), es);
    ExecSame(New(key, limit), es);
    SilentIff(Exec(New(key, limit), es), count, now);
  }
}
