/** `scheduleWithLock`: a cron callback guarded by a Redis key with a lifetime. The key is deleted
    once the handler has ended, whoever set it. */
module CronLock {
  import opened Optional
  import opened ExpiringKeys

  /** One firing of the cron timer in one process. */
  type Execution = nat

  /** The SET NX of a firing, the end of a handler, and the DEL that follows it. */
  datatype Event = Fire(run: Execution, pid: int, now: int) | End(run: Execution, now: int) | Del(run: Execution, now: int)

  /** The lock key of one job; the executions whose handler is running, and those whose DEL is
      still to come, with the time each took the lock; which execution set the key last; and those
      running whose lock another's DEL has removed. */
  datatype State = State(timeout: int, keys: Keys<(), int>, running: map<Execution, int>, deleting: map<Execution, int>,
                         setBy: Option<Execution>, robbed: set<Execution>, clock: int)

  function New(timeout: int): State { State(timeout, map[], map[], map[], None, {}, 0) }

  predicate Legal(s: State, e: Event) {
    && s.clock <= e.now
    && match e
       case Fire(run, _, _) => run !in s.running && run !in s.deleting
       case End(run, _) => run in s.running
       case Del(run, _) => run in s.deleting
  }

  predicate Acquires(s: State, e: Event) { e.Fire? && !Live(s.keys, (), e.now) }

  function Next(s: State, e: Event): State
    requires Legal(s, e)
  {
    match e
    case Fire(run, pid, now) =>
      var (keys, acquired) := SetNx(s.keys, (), pid, s.timeout, now);
      if acquired then s.(keys := keys, running := s.running[run := now], setBy := Some(run), clock := now)
      else s.(clock := now)
    case End(run, now) =>
      s.(running := s.running - {run}, deleting := s.deleting[run := s.running[run]],
         robbed := s.robbed - {run}, clock := now)
    case Del(run, now) =>
      s.(keys := s.keys - {()}, deleting := s.deleting - {run}, robbed := s.robbed + s.running.Keys, clock := now)
  }

  ghost predicate Trace(s: State, es: seq<Event>)
    decreases |es|
  {
    es == [] || (Legal(s, es[0]) && Trace(Next(s, es[0]), es[1..]))
  }

  ghost function Exec(s: State, es: seq<Event>): State
    requires Trace(s, es)
    decreases |es|
  {
    if es == [] then s else Exec(Next(s, es[0]), es[1..])
  }

  lemma {:induction false} ExecCons(s: State, e: Event, es: seq<Event>)
    requires Legal(s, e) && Trace(Next(s, e), es)
    ensures Trace(s, [e] + es) && Exec(s, [e] + es) == Exec(Next(s, e), es)
  {
    assert ([e] + es)[1..] == es;
  }

  // ---------------------------------------------------------------- one at a time

  ghost predicate Exclusive(s: State) {
    forall r1, r2 | r1 in s.running && r2 in s.running :: r1 == r2
  }

  /** The key was set by `run`, which took the lock at `since`. */
  predicate Holds(s: State, run: Execution, since: int) {
    () in s.keys && s.setBy == Some(run) && s.keys[()].expiresAt == Some(since + 1000 * s.timeout)
  }

  /** A running handler's key is there, set by it, until another's DEL removes it. */
  ghost predicate Guarded(s: State) {
    && Exclusive(s) && s.robbed <= s.running.Keys
    && (s.robbed != {} ==> () !in s.keys)
    && (forall r | r in s.running && r !in s.robbed :: Holds(s, r, s.running[r]))
  }

  /** A timer fires while a handler is running whose lock has run out or been removed by another. */
  ghost predicate Unguarded(s: State, e: Event) {
    e.Fire? && exists r :: r in s.running && (e.now > s.running[r] + 1000 * s.timeout || r in s.robbed)
  }

  lemma {:induction false} GuardOf(s: State, r: Execution, now: int)
    requires Guarded(s) && r in s.running
    ensures Live(s.keys, (), now) <==> r !in s.robbed && now <= s.running[r] + 1000 * s.timeout
  {
    assert r !in s.robbed ==> Holds(s, r, s.running[r]);
  }

  lemma {:induction false} StepExclusiveIff(s: State, e: Event)
    requires Guarded(s) && Legal(s, e)
    ensures Exclusive(Next(s, e)) <==> !Unguarded(s, e)
    ensures !Unguarded(s, e) ==> Guarded(Next(s, e))
  {
    var s' := Next(s, e);
    if Unguarded(s, e) {
      var r :| r in s.running && (e.now > s.running[r] + 1000 * s.timeout || r in s.robbed);
      GuardOf(s, r, e.now);
      assert r in s'.running && e.run in s'.running;
    } else if e.Fire? && s.running != map[] {
      var r :| r in s.running;
      GuardOf(s, r, e.now);
      assert s' == s.(clock := e.now);
    }
  }

  ghost predicate AlwaysExclusive(s: State, es: seq<Event>)
    requires Trace(s, es)
    decreases |es|
  {
    Exclusive(s) && (es == [] || AlwaysExclusive(Next(s, es[0]), es[1..]))
  }

  ghost predicate NeverUnguarded(s: State, es: seq<Event>)
    requires Trace(s, es)
    decreases |es|
  {
    es == [] || (!Unguarded(s, es[0]) && NeverUnguarded(Next(s, es[0]), es[1..]))
  }

  lemma {:induction false} ExclusiveIffFrom(s: State, es: seq<Event>)
    requires Guarded(s) && Trace(s, es)
    ensures AlwaysExclusive(s, es) <==> NeverUnguarded(s, es)
    decreases |es|
  {
    if es != [] {
      StepExclusiveIff(s, es[0]);
      if !Unguarded(s, es[0]) {
        ExclusiveIffFrom(Next(s, es[0]), es[1..]);
      }
    }
  }

  /** At most one instance ever runs the handler at a time if and only if no timer fires while a
      handler is running that has outlived its lock or lost it to the DEL of another. */
  lemma {:induction false} ExclusiveIffNeverUnguarded(timeout: int, es: seq<Event>)
    requires Trace(New(timeout), es)
    ensures AlwaysExclusive(New(timeout), es) <==> NeverUnguarded(New(timeout), es)
  {
    ExclusiveIffFrom(New(timeout), es);
  }

  /** Nothing happens later than `timeout` after a handler that still runs, or whose DEL is still to
      come, took its lock. */
  ghost predicate OnTime(s: State, es: seq<Event>)
    requires Trace(s, es)
    decreases |es|
  {
    es == [] ||
    ((forall r | r in s.running :: es[0].now <= s.running[r] + 1000 * s.timeout)
     && (forall r | r in s.deleting :: es[0].now <= s.deleting[r] + 1000 * s.timeout)
     && OnTime(Next(s, es[0]), es[1..]))
  }

  /** The key a handler deletes is always the one it set itself. */
  ghost predicate DeletesOwn(s: State, es: seq<Event>)
    requires Trace(s, es)
    decreases |es|
  {
    es == [] ||
    ((es[0].Del? && () in s.keys ==> s.setBy == Some(es[0].run)) && DeletesOwn(Next(s, es[0]), es[1..]))
  }

  /** One execution at a time, from the SET to the DEL, and the key is its own. */
  ghost predicate OneHolder(s: State) {
    && (forall r1, r2 | r1 in s.running && r2 in s.running :: r1 == r2)
    && (forall r1, r2 | r1 in s.deleting && r2 in s.deleting :: r1 == r2)
    && (s.running == map[] || s.deleting == map[])
    && s.robbed == {}
    && (forall r | r in s.running :: Holds(s, r, s.running[r]))
    && (forall r | r in s.deleting :: Holds(s, r, s.deleting[r]))
  }

  lemma {:induction false} OnTimeStep(s: State, e: Event)
    requires OneHolder(s) && Legal(s, e)
    requires forall r | r in s.running :: e.now <= s.running[r] + 1000 * s.timeout
    requires forall r | r in s.deleting :: e.now <= s.deleting[r] + 1000 * s.timeout
    ensures OneHolder(Next(s, e)) && !Unguarded(s, e)
    ensures e.Del? && () in s.keys ==> s.setBy == Some(e.run)
  {
    var s' := Next(s, e);
    if e.Fire? {
      if s.running != map[] {
        var r :| r in s.running;
        assert Holds(s, r, s.running[r]);
        assert s' == s.(clock := e.now);
      } else if s.deleting != map[] {
        var r :| r in s.deleting;
        assert Holds(s, r, s.deleting[r]);
        assert s' == s.(clock := e.now);
      }
    } else if e.End? {
      assert s'.running == map[] && s.deleting == map[];
    } else {
      assert s'.deleting == map[] && s.running == map[];
    }
  }

  lemma {:induction false} OnTimeFrom(s: State, es: seq<Event>)
    requires OneHolder(s) && Trace(s, es) && OnTime(s, es)
    ensures NeverUnguarded(s, es) && DeletesOwn(s, es)
    decreases |es|
  {
    if es != [] {
      OnTimeStep(s, es[0]);
      OnTimeFrom(Next(s, es[0]), es[1..]);
    }
  }

  /** If every handler and its DEL finish within the lock's lifetime, the job never runs twice at
      once and no instance deletes another's lock. */
  lemma {:induction false} OnTimeIsExclusive(timeout: int, es: seq<Event>)
    requires Trace(New(timeout), es) && OnTime(New(timeout), es)
    ensures AlwaysExclusive(New(timeout), es) && DeletesOwn(New(timeout), es)
  {
    OnTimeFrom(New(timeout), es);
    ExclusiveIffNeverUnguarded(timeout, es);
  }

  /** An overrun spreads, for every lifetime: execution 0 outlives its lock, execution 1 takes it, 0's
      DEL removes 1's lock, and 2 starts beside 1, although 1 and 2 are both on time. */
  lemma {:induction false} OverrunSpreads(timeout: nat, t: int)
    requires t > 1000 * timeout > 0
    ensures var es := [Fire(0, 7, 0), Fire(1, 8, t), End(0, t), Del(0, t), Fire(2, 9, t)];
            && Trace(New(timeout), es)
            && Exec(New(timeout), es).running == map[1 := t, 2 := t]
  {
    var es := [Fire(0, 7, 0), Fire(1, 8, t), End(0, t), Del(0, t), Fire(2, 9, t)];
    var s1 := Next(New(timeout), es[0]);
    assert s1 == State(timeout, map[() := Cell(7, Some(1000 * timeout))], map[0 := 0], map[], Some(0), {}, 0);
    var s2 := Next(s1, es[1]);
    assert s2.running == map[0 := 0, 1 := t] && s2.deleting == map[];
    var s3 := Next(s2, es[2]);
    assert s3.running == map[1 := t] && s3.deleting == map[0 := 0];
    var s4 := Next(s3, es[3]);
    assert s4.keys == map[] && s4.running == map[1 := t] && s4.deleting == map[];
    ExecCons(s4, es[4], []);
    ExecCons(s3, es[3], [es[4]]);
    ExecCons(s2, es[2], [es[3], es[4]]);
    ExecCons(s1, es[1], [es[2], es[3], es[4]]);
    ExecCons(New(timeout), es[0], [es[1], es[2], es[3], es[4]]);
    assert Next(s4, es[4]).running == map[1 := t, 2 := t];
    assert [es[4]] + [] == [es[4]] && [es[3]] + [es[4]] == [es[3], es[4]];
    assert [es[2]] + [es[3], es[4]] == [es[2], es[3], es[4]];
    assert [es[1]] + [es[2], es[3], es[4]] == [es[1], es[2], es[3], es[4]];
    assert [es[0]] + [es[1], es[2], es[3], es[4]] == es;
  }

  // ---------------------------------------------------------------- once a tick

  /** How often the handler is called. */
  ghost function Calls(s: State, es: seq<Event>): nat
    requires Trace(s, es)
    decreases |es|
  {
    if es == [] then 0 else (if Acquires(s, es[0]) then 1 else 0) + Calls(Next(s, es[0]), es[1..])
  }

  /** Every firing comes while the lock taken at `t` lasts, with no DEL before it. */
  predicate Undisturbed(timeout: int, t: int, es: seq<Event>) {
    forall k | 0 <= k < |es| && es[k].Fire? ::
      es[k].now <= t + 1000 * timeout && forall j | 0 <= j < k :: !es[j].Del?
  }

  lemma {:induction false} CallsWithoutKey(s: State, es: seq<Event>)
    requires Trace(s, es) && () !in s.keys
    ensures Calls(s, es) == 0 <==> forall k | 0 <= k < |es| :: !es[k].Fire?
    decreases |es|
  {
    if es != [] && !es[0].Fire? {
      assert forall k | 0 <= k < |es| - 1 :: es[1..][k] == es[k + 1];
      assert forall k | 0 < k < |es| :: es[k] == es[1..][k - 1];
      CallsWithoutKey(Next(s, es[0]), es[1..]);
    }
  }

  lemma {:induction false} UndisturbedCons(timeout: int, t: int, es: seq<Event>)
    requires es != []
    ensures Undisturbed(timeout, t, es) <==>
            && (es[0].Fire? ==> es[0].now <= t + 1000 * timeout)
            && (if es[0].Del? then forall k | 0 < k < |es| :: !es[k].Fire? else Undisturbed(timeout, t, es[1..]))
  {
    assert forall k | 0 <= k < |es| - 1 :: es[1..][k] == es[k + 1];
    if Undisturbed(timeout, t, es) {
      forall k | 0 <= k < |es| - 1 && es[1..][k].Fire?
        ensures es[1..][k].now <= t + 1000 * timeout && forall j | 0 <= j < k :: !es[1..][j].Del?
      {
        assert es[k + 1].Fire?;
      }
    } else {
      var k :| 0 <= k < |es| && es[k].Fire? && !(es[k].now <= t + 1000 * timeout && forall j | 0 <= j < k :: !es[j].Del?);
      if k > 0 && es[k].now <= t + 1000 * timeout {
        var j :| 0 <= j < k && es[j].Del?;
        assert es[1..][k - 1].Fire? && (j > 0 ==> es[1..][j - 1].Del?);
      } else if k > 0 {
        assert es[1..][k - 1].Fire?;
      }
    }
  }

  lemma {:induction false} CallsUnderLock(s: State, es: seq<Event>, t: int)
    requires Trace(s, es) && () in s.keys && s.keys[()].expiresAt == Some(t + 1000 * s.timeout)
    ensures Calls(s, es) == 0 <==> Undisturbed(s.timeout, t, es)
    decreases |es|
  {
    if es != [] {
      UndisturbedCons(s.timeout, t, es);
      if es[0].Del? {
        assert forall k | 0 <= k < |es| - 1 :: es[1..][k] == es[k + 1];
        assert forall k | 0 < k < |es| :: es[k] == es[1..][k - 1];
        CallsWithoutKey(Next(s, es[0]), es[1..]);
      } else if !Acquires(s, es[0]) {
        CallsUnderLock(Next(s, es[0]), es[1..], t);
      }
    }
  }

  /** One tick, from its first firing on (which finds no lock): its handler is called exactly once
      if and only if every other firing of the tick comes within the lifetime of the lock and
      before any DEL. */
  lemma {:induction false} RunsOnceIff(s: State, es: seq<Event>)
    requires Trace(s, es) && es != [] && Acquires(s, es[0])
    ensures Calls(s, es) == 1 <==> Undisturbed(s.timeout, es[0].now, es[1..])
  {
    CallsUnderLock(Next(s, es[0]), es[1..], es[0].now);
  }

  /** Two instances firing for one tick: the second one runs the job again exactly when the first is
      done with it, DEL included, or its lock has run out. */
  lemma {:induction false} SecondRunsIff(timeout: int, p1: int, p2: int, t1: int, t2: int, between: seq<Event>)
    requires Trace(New(timeout), [Fire(0, p1, t1)] + between + [Fire(1, p2, t2)])
    requires forall k | 0 <= k < |between| :: !between[k].Fire?
    ensures Calls(New(timeout), [Fire(0, p1, t1)] + between + [Fire(1, p2, t2)]) == 2 <==>
            t2 > t1 + 1000 * timeout || exists k :: 0 <= k < |between| && between[k].Del?
    ensures Calls(New(timeout), [Fire(0, p1, t1)] + between + [Fire(1, p2, t2)]) <= 2
  {
    var es := [Fire(0, p1, t1)] + between + [Fire(1, p2, t2)];
    var rest := es[1..];
    assert rest == between + [Fire(1, p2, t2)];
    RunsOnceIff(New(timeout), es);
    AtMostFires(Next(New(timeout), es[0]), rest);
    FiresOf(between, Fire(1, p2, t2));
    assert rest[|between|] == Fire(1, p2, t2);
    if Undisturbed(timeout, t1, rest) {
      assert forall k | 0 <= k < |between| :: rest[k] == between[k];
    }
    if t2 <= t1 + 1000 * timeout && !exists k :: 0 <= k < |between| && between[k].Del? {
      assert forall k | 0 <= k < |between| :: rest[k] == between[k];
      assert Undisturbed(timeout, t1, rest);
    }
  }

  function Fires(es: seq<Event>): nat {
    if es == [] then 0 else (if es[0].Fire? then 1 else 0) + Fires(es[1..])
  }

  lemma {:induction false} AtMostFires(s: State, es: seq<Event>)
    requires Trace(s, es)
    ensures Calls(s, es) <= Fires(es)
    decreases |es|
  {
    if es != [] {
      AtMostFires(Next(s, es[0]), es[1..]);
    }
  }

  lemma {:induction false} FiresOf(es: seq<Event>, e: Event)
    requires forall k | 0 <= k < |es| :: !es[k].Fire?
    ensures Fires(es + [e]) <= 1
  {
    if es == [] {
      assert [] + [e] == [e] && [e][1..] == [];
    } else {
      assert (es + [e])[1..] == es[1..] + [e];
      FiresOf(es[1..], e);
    }
  }

  /** The scheduled callback, in the two stretches around the handler it awaits. */
  class LockedJob {
    const timeoutSecs: int
    var keys: Keys<(), int>
    ghost var running: map<Execution, int>
    ghost var deleting: map<Execution, int>
    ghost var setBy: Option<Execution>
    ghost var robbed: set<Execution>
    ghost var clock: int

    constructor (timeoutSecs: int)
      ensures View() == New(timeoutSecs)
    {
      this.timeoutSecs := timeoutSecs;
      keys, running, deleting, setBy, robbed, clock := map[], map[], map[], None, {}, 0;
    }

    ghost function View(): State
      reads this
    {
      State(timeoutSecs, keys, running, deleting, setBy, robbed, clock)
    }

    /** Up to the handler; `acquired` says whether it is called. */
    method Begin(ghost run: Execution, pid: int, now: int) returns (acquired: bool)
      requires clock <= now && run !in running && run !in deleting
      modifies this
      ensures View() == Next(old(View()), Fire(run, pid, now))
      ensures acquired <==> run in running
      ensures acquired <==> !Live(old(keys), (), now)
    {
      var result := SetNx(keys, (), pid, timeoutSecs, now);
      keys, acquired, clock := result.0, result.1, now;
      if !acquired {
        return;
      }
      running, setBy := running[run := now], Some(run);
    }

    /** The `finally` block, however the handler ended at `tEnd`. */
    method Finish(ghost run: Execution, ghost tEnd: int, now: int)
      requires clock <= tEnd <= now && run in running
      modifies this
      ensures View() == Next(Next(old(View()), Event.End(run, tEnd)), Event.Del(run, now))
    {
      ghost var took := running[run];
      running, robbed, deleting := running - {run}, robbed - {run}, deleting[run := took];
      keys, deleting, robbed, clock := keys - {()}, deleting - {run}, robbed + running.Keys, now;
    }
  }
}
