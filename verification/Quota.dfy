/** The quota engine's Redis counters, with JavaScript's percentage arithmetic done exactly. */
module Quota {
  import opened Arithmetic
  import opened Optional
  import opened ExpiringKeys

  datatype Key = Key(tenant: string, metric: string, month: string)

  /** What `(count / limit) * 100` rounds to: dividing by a zero limit gives the IEEE specials. */
  datatype Percent = Number(n: int) | Infinite(positive: bool) | NotANumber

  function Percentage(count: int, limit: nat): Percent {
    if limit > 0 then Number((200 * count + limit) / (2 * limit))
    else if count == 0 then NotANumber
    else Infinite(count > 0)
  }

  predicate AtLeast(p: Percent, threshold: int) {
    match p
    case Number(n) => n >= threshold
    case Infinite(positive) => positive
    case NotANumber => false
  }

  const WARNING := 80
  const EXCEEDED := 100
  const MONTH_TTL := 35 * 24 * 60 * 60
  const WARN_TTL := 24 * 60 * 60

  /** One tenant database of counters and warning flags, and the warnings emitted. */
  datatype State = State(counters: Keys<Key, int>, flags: Keys<Key, int>)

  datatype Outcome = Accepted(warned: bool) | Exceeded

  /** `enforce` for a limited plan. */
  function Enforced(s: State, key: Key, limit: nat, amount: int, tIncr: int, tExpire: int, tWarn: int): (State, Outcome) {
    var (counters, count) := IncrBy(s.counters, key, amount, tIncr);
    var kept := if count == amount then Expire(counters, key, MONTH_TTL, tExpire) else counters;
    var p := Percentage(count, limit);
    if AtLeast(p, EXCEEDED) then (s.(counters := kept), Exceeded)
    else if AtLeast(p, WARNING) then
      var (flags, raised) := SetNx(s.flags, key, 1, WARN_TTL, tWarn);
      (State(kept, flags), Accepted(raised))
    else (s.(counters := kept), Accepted(false))
  }

  function Usage(s: State, key: Key, now: int): int {
    GetOr(Get(s.counters, key, now), 0)
  }

  predicate Allowed(s: State, key: Key, limit: nat, now: int) {
    Usage(s, key, now) < limit
  }

  /** Rounding moves the threshold: half a percent below the limit already counts as all of it. */
  lemma {:induction false} ThresholdIff(count: int, limit: nat)
    requires limit > 0
    ensures AtLeast(Percentage(count, limit), EXCEEDED) <==> 200 * count >= 199 * limit
    ensures AtLeast(Percentage(count, limit), WARNING) <==> 200 * count >= 159 * limit
  {
    DivAtLeast(200 * count + limit, EXCEEDED, 2 * limit);
    DivAtLeast(200 * count + limit, WARNING, 2 * limit);
  }

  /** What a call leaves in the counter: a counter it finds absent, expired or at 0 holds the amount for
      35 days from its EXPIRE; any other grows and keeps its lifetime. */
  lemma {:induction false} EnforceCounts(s: State, key: Key, limit: nat, amount: int, tIncr: int, tExpire: int, tWarn: int)
    requires tIncr <= tExpire
    ensures var was, now := s.counters, Enforced(s, key, limit, amount, tIncr, tExpire, tWarn).0.counters;
            && key in now && now.Keys == was.Keys + {key}
            && (!Live(was, key, tIncr) ==> now[key] == Cell(amount, Some(tExpire + 1000 * 35 * 24 * 60 * 60)))
            && (Live(was, key, tIncr) && was[key].value != 0 ==>
                  now[key] == Cell(was[key].value + amount, was[key].expiresAt))
            && (Live(was, key, tExpire) && was[key].value == 0 ==>
                  now[key] == Cell(amount, Some(tExpire + 1000 * 35 * 24 * 60 * 60)))
            && (forall k | k in was && k != key :: now[k] == was[k])
  {
  }

  /** A call warns exactly when it is accepted in the band from 79.5% of the limit on and no warning's flag
      is live. */
  lemma {:induction false} EnforceWarnsIff(s: State, key: Key, limit: nat, amount: int, tIncr: int, tExpire: int, tWarn: int)
    requires limit > 0
    ensures var count := Usage(s, key, tIncr) + amount;
            var (s', outcome) := Enforced(s, key, limit, amount, tIncr, tExpire, tWarn);
            && (outcome == Exceeded <==> 200 * count >= 199 * limit)
            && (outcome == Accepted(true) <==> 159 * limit <= 200 * count < 199 * limit && !Live(s.flags, key, tWarn))
            && s'.flags == if outcome == Accepted(true) then SetEx(s.flags, key, 1, 86_400, tWarn) else s.flags
  {
    ThresholdIff(Usage(s, key, tIncr) + amount, limit);
  }

  /** A limit of 0: every call that leaves the counter above 0 is rejected, and check never allows. */
  lemma {:induction false} NothingAllowed(s: State, key: Key, amount: int, tIncr: int, tExpire: int, tWarn: int)
    ensures Enforced(s, key, 0, amount, tIncr, tExpire, tWarn).1.Exceeded? <==> Usage(s, key, tIncr) + amount > 0
    ensures Usage(s, key, tIncr) >= 0 ==> !Allowed(s, key, 0, tIncr)
  {
  }

  // ---------------------------------------------------------------- a month of calls

  datatype Call = Call(amount: int, tIncr: int, tExpire: int, tWarn: int)

  /** The engine with what its calls on one key have come to. */
  datatype Ledger = Ledger(state: State, clock: int, started: int, asked: int, accepted: int,
                           rejected: bool, warnings: seq<int>)

  function Next(l: Ledger, key: Key, limit: nat, c: Call): Ledger {
    var (s, outcome) := Enforced(l.state, key, limit, c.amount, c.tIncr, c.tExpire, c.tWarn);
    Ledger(s, c.tWarn, if l.asked == 0 then c.tIncr else l.started, l.asked + c.amount,
           if outcome.Accepted? then l.accepted + c.amount else l.accepted,
           l.rejected || outcome.Exceeded?,
           if outcome.Accepted? && outcome.warned then l.warnings + [c.tWarn] else l.warnings)
  }

  /** A positive increment, in order, within 31 days of the first one. */
  predicate Legal(l: Ledger, c: Call) {
    && c.amount > 0 && l.clock <= c.tIncr <= c.tExpire <= c.tWarn
    && (l.asked > 0 ==> c.tIncr <= l.started + 31 * 24 * 60 * 60 * 1000)
  }

  predicate Trace(l: Ledger, key: Key, limit: nat, cs: seq<Call>)
    decreases |cs|
  {
    cs == [] || (Legal(l, cs[0]) && Trace(Next(l, key, limit, cs[0]), key, limit, cs[1..]))
  }

  function Exec(l: Ledger, key: Key, limit: nat, cs: seq<Call>): Ledger
    decreases |cs|
  {
    if cs == [] then l else Exec(Next(l, key, limit, cs[0]), key, limit, cs[1..])
  }

  const FRESH := Ledger(State(map[], map[]), 0, 0, 0, 0, false, [])

  /** The counter holds everything asked for, accepted or not, for the whole month. */
  ghost predicate CounterOk(l: Ledger, key: Key) {
    && (l.asked == 0 <==> key !in l.state.counters)
    && (l.asked > 0 ==>
          && l.state.counters[key].value == l.asked
          && l.state.counters[key].expiresAt.Some?
          && l.state.counters[key].expiresAt.value >= l.started + 1000 * MONTH_TTL)
  }

  ghost predicate TotalsOk(l: Ledger, limit: nat) {
    && 0 <= l.accepted <= l.asked
    && (l.rejected <==> l.asked > 0 && 200 * l.asked >= 199 * limit)
    && (!l.rejected ==> l.accepted == l.asked)
    && (l.accepted > 0 ==> 200 * l.accepted < 199 * limit)
  }

  ghost predicate WarningsOk(l: Ledger, key: Key) {
    && (l.warnings == [] <==> key !in l.state.flags)
    && (l.warnings != [] ==>
          && l.warnings[|l.warnings| - 1] <= l.clock
          && l.state.flags[key].expiresAt == Some(l.warnings[|l.warnings| - 1] + 1000 * WARN_TTL))
    && (forall i | 1 <= i < |l.warnings| :: l.warnings[i] > l.warnings[i - 1] + 1000 * WARN_TTL)
  }

  ghost predicate LedgerOk(l: Ledger, key: Key, limit: nat) {
    CounterOk(l, key) && TotalsOk(l, limit) && WarningsOk(l, key)
  }

  lemma {:induction false} NextCounterOk(l: Ledger, key: Key, limit: nat, c: Call)
    requires CounterOk(l, key) && l.asked >= 0 && Legal(l, c)
    ensures CounterOk(Next(l, key, limit, c), key)
    ensures IncrBy(l.state.counters, key, c.amount, c.tIncr).1 == l.asked + c.amount
  {
  }

  lemma {:induction false} NextWarningsOk(l: Ledger, key: Key, limit: nat, c: Call)
    requires WarningsOk(l, key) && Legal(l, c)
    ensures WarningsOk(Next(l, key, limit, c), key)
  {
  }

  lemma {:induction false} NextOk(l: Ledger, key: Key, limit: nat, c: Call)
    requires limit > 0 && LedgerOk(l, key, limit) && Legal(l, c)
    ensures LedgerOk(Next(l, key, limit, c), key, limit)
    ensures Enforced(l.state, key, limit, c.amount, c.tIncr, c.tExpire, c.tWarn).1.Accepted?
            <==> 200 * (l.asked + c.amount) < 199 * limit
  {
    NextCounterOk(l, key, limit, c);
    ThresholdIff(l.asked + c.amount, limit);
    NextWarningsOk(l, key, limit, c);
  }

  lemma {:induction false} ExecOk(l: Ledger, key: Key, limit: nat, cs: seq<Call>)
    requires limit > 0 && LedgerOk(l, key, limit) && Trace(l, key, limit, cs)
    ensures LedgerOk(Exec(l, key, limit, cs), key, limit)
    decreases |cs|
  {
    if cs != [] {
      NextOk(l, key, limit, cs[0]);
      ExecOk(Next(l, key, limit, cs[0]), key, limit, cs[1..]);
    }
  }

  /** A month of positive increments: a call is accepted exactly while everything asked for so
      far stays below 99.5% of the limit, so accepted usage stays below the limit, no call is
      accepted after a rejection, and warnings are more than 24 hours apart. */
  lemma {:induction false} QuotaHolds(key: Key, limit: nat, cs: seq<Call>, c: Call)
    requires limit > 0 && Trace(FRESH, key, limit, cs) && Legal(Exec(FRESH, key, limit, cs), c)
    ensures var l := Exec(FRESH, key, limit, cs);
            var accepted := Enforced(l.state, key, limit, c.amount, c.tIncr, c.tExpire, c.tWarn).1.Accepted?;
            && (accepted <==> 200 * (l.asked + c.amount) < 199 * limit)
            && (l.rejected ==> !accepted)
            && l.accepted < limit && (!l.rejected ==> l.accepted == l.asked)
            && (forall i | 1 <= i < |l.warnings| :: l.warnings[i] - l.warnings[i - 1] > 24 * 60 * 60 * 1000)
  {
    ExecOk(FRESH, key, limit, cs);
    NextOk(Exec(FRESH, key, limit, cs), key, limit, c);
  }

  /** After an accepted call `check` still allows, for as long as the month lasts. */
  lemma {:induction false} CheckAgreesAfterAcceptance(key: Key, limit: nat, cs: seq<Call>, c: Call, now: int)
    requires limit > 0 && Trace(FRESH, key, limit, cs) && Legal(Exec(FRESH, key, limit, cs), c)
    requires Enforced(Exec(FRESH, key, limit, cs).state, key, limit, c.amount, c.tIncr, c.tExpire, c.tWarn).1.Accepted?
    ensures Allowed(Next(Exec(FRESH, key, limit, cs), key, limit, c).state, key, limit, now)
  {
    ExecOk(FRESH, key, limit, cs);
    NextOk(Exec(FRESH, key, limit, cs), key, limit, c);
  }

  /** The two disagree on exactly one band of counts: a call that brings the counter to `count`
      is rejected although `check` then reports the quota as not used up. */
  lemma {:induction false} DisagreementIff(count: int, limit: nat)
    requires limit > 0
    ensures AtLeast(Percentage(count, limit), EXCEEDED) && count < limit
            <==> 199 * limit <= 200 * count < 200 * limit
  {
    ThresholdIff(count, limit);
  }

  class QuotaEngine {
    var counters: Keys<Key, int>
    var flags: Keys<Key, int>

    constructor ()
      ensures View() == State(map[], map[])
    {
      counters, flags := map[], map[];
    }

    function View(): State
      reads this
    {
      State(counters, flags)
    }

    /** An unlimited plan (no limit) is neither counted nor rejected. */
    method Enforce(key: Key, limit: Option<nat>, incrementBy: int, tIncr: int, tExpire: int, tWarn: int)
      returns (outcome: Outcome)
      modifies this
      ensures limit.None? ==> outcome == Accepted(false) && View() == old(View())
      ensures limit.Some? ==>
                (View(), outcome) == Enforced(old(View()), key, limit.value, incrementBy, tIncr, tExpire, tWarn)
    {
      if limit.None? {
        return Accepted(false);
      }
      var incremented := IncrBy(counters, key, incrementBy, tIncr);
      var newCount := incremented.1;
      counters := incremented.0;
      if newCount == incrementBy {
        counters := Expire(counters, key, MONTH_TTL, tExpire);
      }
      var percentage := Percentage(newCount, limit.value);
      if AtLeast(percentage, EXCEEDED) {
        return Exceeded;
      }
      outcome := Accepted(false);
      if AtLeast(percentage, WARNING) {
        var flagged := SetNx(flags, key, 1, WARN_TTL, tWarn);
        flags := flagged.0;
        outcome := Accepted(flagged.1);
      }
    }

    /** The percentage can read 100 while the call is still allowed. */
    method Check(key: Key, limit: Option<nat>, now: int) returns (allowed: bool, used: int, percentage: Percent)
      ensures limit.None? ==> allowed && used == 0 && percentage == Number(0)
      ensures limit.Some? ==>
                && used == Usage(View(), key, now) && (allowed <==> Allowed(View(), key, limit.value, now))
                && percentage == Percentage(used, limit.value)
      ensures limit.Some? && limit.value > 0 ==>
                (AtLeast(percentage, EXCEEDED) && allowed <==> 199 * limit.value <= 200 * used < 200 * limit.value)
    {
      if limit.None? {
        return true, 0, Number(0);
      }
      used := GetOr(Get(counters, key, now), 0);
      percentage := Percentage(used, limit.value);
      allowed := used < limit.value;
      if limit.value > 0 {
        DisagreementIff(used, limit.value);
      }
    }

    method Decrement(key: Key, decrementBy: int, now: int)
      modifies this
      ensures counters == IncrBy(old(counters), key, -decrementBy, now).0 && flags == old(flags)
      ensures Usage(View(), key, now) == Usage(old(View()), key, now) - decrementBy
    {
      counters := IncrBy(counters, key, -decrementBy, now).0;
    }

    /** Sets two counters of the month to 0, and with SET clears their lifetime. */
    method ResetMonthly(tenant: string, month: string)
      modifies this
      ensures flags == old(flags)
      ensures forall now, metric :: Usage(View(), Key(tenant, metric, month), now)
                == if metric == "api_requests" || metric == "export_records" then 0
                   else Usage(old(View()), Key(tenant, metric, month), now)
      ensures forall k: Key | k.tenant != tenant || k.month != month ::
                && (k in counters <==> k in old(counters))
                && (k in counters ==> counters[k] == old(counters)[k])
    {
      var metrics, i := ["api_requests", "export_records"], 0;
      while i < |metrics|
        invariant 0 <= i <= |metrics| && flags == old(flags)
        invariant counters == if i == 0 then old(counters)
                  else if i == 1 then Set(old(counters), Key(tenant, metrics[0], month), 0)
                  else Set(Set(old(counters), Key(tenant, metrics[0], month), 0), Key(tenant, metrics[1], month), 0)
      {
        counters := Set(counters, Key(tenant, metrics[i], month), 0);
        i := i + 1;
      }
    }
  }
}
