/** What promoting and retrying one at a time buys. */
module QueueSinglePromoter {
  import opened Optional
  import opened Ordering
  import opened QueueModel
  import opened QueueCommands
  import opened QueueInterleavings
  import opened QueueRecords
  import opened QueueTiming
  import opened QueuePacing

  /** A promotion starts only when no other is under way, and a retry of a job only when no
      other retry of it is about to remove it. */
  ghost predicate Exclusive(w: World, c: Command) {
    match c.choice
    case BeginDequeue(_) => forall t :: !PcOf(w, t).Promoting?
    case BeginRetry(id) => forall t :: PcOf(w, t) != RetryRemoving(id)
    case _ => true
  }

  /** What a thread has read is still so: the jobs it is about to promote are delayed and due,
      the job it is about to retry is in the dead-letter queue. */
  ghost predicate Timely(w: World, t: Thread) {
    match PcOf(w, t)
    case Promoting(due, asOf, removed) =>
      && asOf <= w.clock
      && (removed && due != [] ==> due[0] in w.store.jobs && w.store.jobs[due[0]].runAt <= asOf)
      && (forall i | One(removed) <= i < |due| :: due[i] in w.store.delayed && w.store.delayed[due[i]] <= asOf)
      && (forall i, j | 0 <= i < j < |due| :: due[i] != due[j])
    case RetryRemoving(id) => id in w.store.dlq
    case _ => true
  }

  function One(b: bool): nat { if b then 1 else 0 }

  ghost predicate NoRivals(w: World, t1: Thread, t2: Thread) {
    && (PcOf(w, t1).Promoting? && PcOf(w, t2).Promoting? ==> t1 == t2)
    && (PcOf(w, t1).RetryRemoving? && PcOf(w, t1) == PcOf(w, t2) ==> t1 == t2)
  }

  ghost predicate Tidy(w: World) {
    (forall t :: Timely(w, t)) && (forall t1, t2 :: NoRivals(w, t1, t2))
  }

  lemma {:induction false} TidyIsSafe(w: World, c: Command)
    requires Enabled(w, c) && Tidy(w)
    ensures !Misses(w, c) && !Early(w, c)
  {
    assert Timely(w, c.thread);
  }

  /** Another thread's command leaves alone what a thread is about to promote or retry. */
  lemma {:induction false} OthersKeepTimely(w: World, c: Command, t: Thread)
    requires Enabled(w, c) && Sound(w) && Tidy(w) && t != c.thread
    ensures Timely(Step(w, c), t)
  {
    assert Timely(w, t) && PcOf(Step(w, c), t) == PcOf(w, t);
    TidyIsSafe(w, c);
    if PcOf(w, t).Promoting? {
      OthersKeepDue(w, c, t);
      if PcOf(w, t).removed && PcOf(w, t).due != [] {
        CarriersKeepRecords(w, c, t);
      }
    } else if PcOf(w, t).RetryRemoving? {
      assert NoRivals(w, t, c.thread);
      Relocates(w, c, PcOf(w, t).id, InDlq);
    }
  }

  lemma {:induction false} OthersKeepDue(w: World, c: Command, t: Thread)
    requires Enabled(w, c) && Sound(w) && Tidy(w) && t != c.thread && PcOf(w, t).Promoting?
    ensures var due, removed := PcOf(w, t).due, PcOf(w, t).removed;
            forall i | One(removed) <= i < |due| ::
              && due[i] in w.store.delayed && due[i] in Step(w, c).store.delayed
              && Step(w, c).store.delayed[due[i]] == w.store.delayed[due[i]]
  {
    var w', due, removed := Step(w, c), PcOf(w, t).due, PcOf(w, t).removed;
    assert Timely(w, t) && NoRivals(w, t, c.thread);
    forall i | One(removed) <= i < |due|
      ensures due[i] in w'.store.delayed && w'.store.delayed[due[i]] == w.store.delayed[due[i]]
    {
      assert Alone(w, due[i]) && At(w, due[i], InDelayed) && !At(w, due[i], Flight(c.thread));
      Relocates(w, c, due[i], InDelayed);
      ScoreKept(w, c, due[i]);
    }
  }

  lemma {:induction false} OwnKeepTimely(w: World, c: Command)
    requires Enabled(w, c) && Sound(w) && Tidy(w)
    ensures Timely(Step(w, c), c.thread)
  {
    assert Timely(w, c.thread);
    assert PcOf(Step(w, c), c.thread) == Effect(w, c).2;
    if c.choice == Continue && PcOf(w, c.thread).Promoting? && !PcOf(w, c.thread).removed {
      var id := PcOf(w, c.thread).due[0];
      assert Agreed(w, id) && Recorded(w, id) && At(w, id, InDelayed);
    }
  }

  lemma {:induction false} StepKeepsNoRivals(w: World, c: Command, t1: Thread, t2: Thread)
    requires Enabled(w, c) && Tidy(w) && Exclusive(w, c)
    ensures NoRivals(Step(w, c), t1, t2)
  {
    var w' := Step(w, c);
    assert NoRivals(w, t1, t2);
    assert PcOf(w', t1) == if t1 == c.thread then Effect(w, c).2 else PcOf(w, t1);
    assert PcOf(w', t2) == if t2 == c.thread then Effect(w, c).2 else PcOf(w, t2);
  }

  ghost predicate AlwaysExclusive(w: World, cs: seq<Command>)
    requires Trace(w, cs)
    decreases |cs|
  {
    cs == [] || (Exclusive(w, cs[0]) && AlwaysExclusive(Step(w, cs[0]), cs[1..]))
  }

  lemma {:induction false} ExclusiveIsSafeFrom(w: World, cs: seq<Command>)
    requires Sound(w) && Tidy(w) && Trace(w, cs) && AlwaysExclusive(w, cs)
    ensures NeverMisses(w, cs) && NeverEarly(w, cs)
    decreases |cs|
  {
    if cs != [] {
      var c, w' := cs[0], Step(w, cs[0]);
      TidyIsSafe(w, c);
      StepKeepsSound(w, c);
      forall t ensures Timely(w', t) {
        if t == c.thread { OwnKeepTimely(w, c); } else { OthersKeepTimely(w, c, t); }
      }
      forall t1, t2 ensures NoRivals(w', t1, t2) { StepKeepsNoRivals(w, c, t1, t2); }
      ExclusiveIsSafeFrom(w', cs[1..]);
    }
  }

  /** With one promotion at a time, and one retry of each job at a time, whatever else interleaves:
      no removal misses and no promotion is early, so every job is always in one place, is due
      whenever it waits or is worked on, and keeps its backoff. */
  lemma {:induction false} ExclusiveIsSafe(cs: seq<Command>, id: Id)
    requires Trace(START, cs) && AlwaysExclusive(START, cs)
    ensures AlwaysUnique(START, cs) && AlwaysDue(START, cs)
    ensures NoneLost(Exec(START, cs)) && Consistent(Exec(START, cs))
    ensures BacksOff(Times(Exec(START, cs), id))
  {
    ExclusiveIsSafeFrom(START, cs);
    UniqueAndDueIff(cs);
    RecordsAgree(START, cs);
    BackoffUnderInterleaving(cs, id);
  }
}
