/** Promotion and time under interleaving: exactly when no job is handed out before its runAt. */
module QueueTiming {
  import opened Optional
  import opened Ordering
  import opened QueueModel
  import opened QueueCommands
  import opened QueueInterleavings
  import opened QueueRecords

  /** A job that can be taken, or has been, is due. */
  ghost predicate DueNow(w: World, id: Id) {
    id in w.store.jobs && (id in w.store.waiting || id in w.store.active) ==> w.store.jobs[id].runAt <= w.clock
  }

  ghost predicate AllDue(w: World) {
    forall id :: DueNow(w, id)
  }

  /** A promotion's ZADD of a job whose runAt lies past the clock. */
  predicate Early(w: World, c: Command)
    requires Enabled(w, c)
  {
    c.choice == Continue &&
    match PcOf(w, c.thread)
    case Promoting(due, _, removed) => removed && due[0] in w.store.jobs && w.store.jobs[due[0]].runAt > c.now
    case _ => false
  }

  /** Places of jobs that may lie ahead: delayed, or carried from or to there. */
  predicate LiesAhead(w: World, loc: Loc) {
    match loc
    case InDelayed => true
    case Flight(t) =>
      (match PcOf(w, t)
       case Adding(_, _) => true
       case Promoting(_, _, _) => true
       case FailQueueing(_, runAt) => runAt.Some?
       case _ => false)
    case _ => false
  }

  ghost predicate RipeAt(w: World, id: Id, loc: Loc) {
    At(w, id, loc) && !LiesAhead(w, loc) ==> id in w.store.jobs && w.store.jobs[id].runAt <= w.clock
  }

  ghost predicate AddedBefore(w: World, t: Thread) {
    PcOf(w, t).Adding? ==> PcOf(w, t).job.createdAt <= w.clock
  }

  ghost predicate Ripe(w: World) {
    (forall id, loc :: RipeAt(w, id, loc)) && (forall t :: AddedBefore(w, t))
  }

  lemma {:induction false} RipeIsDue(w: World)
    requires Ripe(w)
    ensures AllDue(w)
  {
    forall id ensures DueNow(w, id) {
      assert RipeAt(w, id, InWaiting) && RipeAt(w, id, InActive);
    }
  }

  /** What a job becomes that the command moves. */
  lemma {:induction false} MovedIsRipe(w: World, c: Command, id: Id, loc: Loc)
    requires Enabled(w, c) && Good(w) && Consistent(w) && Ripe(w) && !Misses(w, c) && !Early(w, c)
    requires TransferOf(w, c).Moves? && TransferOf(w, c).id == id && TransferOf(w, c).to == loc
    ensures RipeAt(Step(w, c), id, loc)
  {
    var m := TransferOf(w, c);
    FoundUnlessMissed(w, c);
    assert PcOf(Step(w, c), c.thread) == Effect(w, c).2;
    assert Prepared(w, c.thread) && AddedBefore(w, c.thread);
    if m.from.Some? {
      assert RipeAt(w, id, m.from.value) && Recorded(w, id);
    }
  }

  /** A thread that keeps carrying a job changes its runAt only to delay it. */
  ghost predicate RunAtKept(w: World, c: Command, id: Id)
    requires Enabled(w, c) && id in w.store.jobs
  {
    var (s, _, pc) := Effect(w, c);
    && id in s.jobs
    && (s.jobs[id].runAt == w.store.jobs[id].runAt || (pc.FailQueueing? && pc.runAt.Some?))
  }

  lemma {:induction false} FailKeepsRunAt(w: World, c: Command, id: Id)
    requires Enabled(w, c) && c.choice == Continue && id in w.store.jobs
    requires PcOf(w, c.thread).FailLogging? || PcOf(w, c.thread).FailStatus?
    requires PcOf(w, c.thread).id == id
    ensures RunAtKept(w, c, id)
  {
  }

  lemma {:induction false} OthersKeepRunAt(w: World, c: Command, id: Id)
    requires Enabled(w, c) && c.choice == Continue && id in w.store.jobs
    requires PcOf(w, c.thread).CompletingRecord? || PcOf(w, c.thread).RetryRecord?
    requires PcOf(w, c.thread).id == id
    ensures RunAtKept(w, c, id)
  {
  }

  lemma {:induction false} UnmovedIsRipe(w: World, c: Command, id: Id, loc: Loc)
    requires Enabled(w, c) && Ripe(w) && At(w, id, loc)
    requires Carried(Effect(w, c).2) == Some(id) ==> loc == Flight(c.thread)
    requires !(TransferOf(w, c).Moves? && TransferOf(w, c).id == id)
    ensures RipeAt(Step(w, c), id, loc)
  {
    assert RipeAt(w, id, loc);
    assert PcOf(Step(w, c), c.thread) == Effect(w, c).2;
    assert loc.Flight? && loc.thread != c.thread ==> PcOf(Step(w, c), loc.thread) == PcOf(w, loc.thread);
    WritesCarried(w, c);
    if loc == Flight(c.thread) && c.choice == Continue {
      if InFail(PcOf(w, c.thread)) {
        FailKeepsRunAt(w, c, id);
      } else {
        OthersKeepRunAt(w, c, id);
      }
    }
  }

  lemma {:induction false} StepKeepsRipe(w: World, c: Command)
    requires Enabled(w, c) && Good(w) && NoneLost(w) && Consistent(w) && Ripe(w) && !Misses(w, c) && !Early(w, c)
    ensures Ripe(Step(w, c))
  {
    var w', m := Step(w, c), TransferOf(w, c);
    StepUniqueIff(w, c);
    forall id, loc | At(w', id, loc) ensures RipeAt(w', id, loc) {
      Relocates(w, c, id, loc);
      assert Alone(w', id);
      if m.Moves? && m.id == id {
        Relocates(w, c, id, m.to);
        MovedIsRipe(w, c, id, loc);
      } else {
        assert PcOf(w', c.thread) == Effect(w, c).2;
        assert Carried(Effect(w, c).2) == Some(id) ==> At(w', id, Flight(c.thread));
        UnmovedIsRipe(w, c, id, loc);
      }
    }
    forall t ensures AddedBefore(w', t) {
      assert AddedBefore(w, t);
      assert PcOf(w', t) == if t == c.thread then Effect(w, c).2 else PcOf(w, t);
    }
  }

  lemma {:induction false} EarlyIsNotDue(w: World, c: Command)
    requires Enabled(w, c) && Early(w, c)
    ensures !AllDue(Step(w, c))
  {
    var id := PcOf(w, c.thread).due[0];
    assert !DueNow(Step(w, c), id);
  }

  ghost predicate AlwaysDue(w: World, cs: seq<Command>)
    requires Trace(w, cs)
    decreases |cs|
  {
    AllDue(w) && (cs == [] || AlwaysDue(Step(w, cs[0]), cs[1..]))
  }

  ghost predicate NeverEarly(w: World, cs: seq<Command>)
    requires Trace(w, cs)
    decreases |cs|
  {
    cs == [] || (!Early(w, cs[0]) && NeverEarly(Step(w, cs[0]), cs[1..]))
  }

  /** One command of a run without misses keeps all that the results below rest on. */
  lemma {:induction false} StepKeepsSound(w: World, c: Command)
    requires Enabled(w, c) && Sound(w) && !Misses(w, c)
    ensures Sound(Step(w, c))
  {
    StepKeepsGood(w, c);
    StepLosesNone(w, c);
    StepKeepsConsistent(w, c);
  }

  ghost predicate Sound(w: World) { Good(w) && NoneLost(w) && Consistent(w) }

  lemma {:induction false} DueIffNeverEarlyFrom(w: World, cs: seq<Command>)
    requires Sound(w) && Ripe(w) && Trace(w, cs) && NeverMisses(w, cs)
    ensures AlwaysDue(w, cs) <==> NeverEarly(w, cs)
    decreases |cs|
  {
    RipeIsDue(w);
    if cs != [] {
      if Early(w, cs[0]) {
        EarlyIsNotDue(w, cs[0]);
      } else {
        StepKeepsSound(w, cs[0]);
        StepKeepsRipe(w, cs[0]);
        DueIffNeverEarlyFrom(Step(w, cs[0]), cs[1..]);
      }
    }
  }

  /** In a run without misses, every job that waits or is worked on is due at every moment if and
      only if no promotion inserts a job whose runAt lies past the clock. */
  lemma {:induction false} DueIffNeverEarly(cs: seq<Command>)
    requires Trace(START, cs) && NeverMisses(START, cs)
    ensures AlwaysDue(START, cs) <==> NeverEarly(START, cs)
  {
    DueIffNeverEarlyFrom(START, cs);
  }

  /** Both promises at once, over all runs: one place for each job and none before its time, if and
      only if no removal misses and no promotion is early. */
  lemma {:induction false} UniqueAndDueIff(cs: seq<Command>)
    requires Trace(START, cs)
    ensures AlwaysUnique(START, cs) && AlwaysDue(START, cs) <==> NeverMisses(START, cs) && NeverEarly(START, cs)
  {
    UniqueIffNeverMisses(cs);
    if NeverMisses(START, cs) {
      DueIffNeverEarly(cs);
    }
  }
}
