/** Backoff and attempts under interleaving: without misses and early promotions, the dequeues of
    every job are spaced as when each operation runs alone. */
module QueuePacing {
  import opened Optional
  import opened Ordering
  import opened QueueModel
  import opened QueueCommands
  import opened QueueInterleavings
  import opened QueueRecords
  import opened QueueTiming

  /** Between attempts: each one so far has failed, more are allowed, and the next one is due only
      after the backoff. */
  ghost predicate Pending(w: World, id: Id)
    requires id in w.store.jobs
  {
    var job, d := w.store.jobs[id], Times(w, id);
    && |d| == job.attempts && |d| < Tries(job)
    && (d != [] ==> job.runAt >= d[|d| - 1] + Backoff(|d|))
  }

  /** How the dequeues of a job go with its record, place by place. */
  ghost predicate Counted(w: World, id: Id, loc: Loc)
    requires id in w.store.jobs
  {
    var job, n := w.store.jobs[id], |Times(w, id)|;
    match loc
    case InWaiting => Pending(w, id)
    case InDelayed => Pending(w, id)
    case InActive => n == job.attempts + 1
    case Flight(t) =>
      (match PcOf(w, t)
       case Adding(_, _) => Pending(w, id)
       case Promoting(_, _, _) => Pending(w, id)
       case FailLogging(_, logged) => n == logged.attempts && logged.maxAttempts == job.maxAttempts
       case FailStatus(_, logged) => n == logged.attempts == job.attempts && logged.maxAttempts == job.maxAttempts
       case FailQueueing(_, runAt) => runAt.Some? ==> Pending(w, id)
       case RetryQueueing(_) => Pending(w, id)
       case _ => true)
    case _ => true
  }

  ghost predicate PacedAt(w: World, id: Id, loc: Loc) {
    At(w, id, loc) ==>
      && id in w.store.jobs && Spaced(Times(w, id)) && |Times(w, id)| <= Tries(w.store.jobs[id])
      && Counted(w, id, loc)
  }

  /** The job a thread has taken and not yet rescheduled. */
  function Working(pc: Pc): Option<Id> {
    match pc
    case FailLogging(id, _) => Some(id)
    case FailStatus(id, _) => Some(id)
    case _ => Owned(pc)
  }

  /** The thread took the job before its last command, and has read its record. */
  ghost predicate TookBefore(w: World, t: Thread) {
    && (Working(PcOf(w, t)).Some? ==>
          var d := Times(w, Working(PcOf(w, t)).value);
          d != [] && d[|d| - 1] <= Seen(w, t))
    && (PcOf(w, t).Failing? ==>
          PcOf(w, t).id in w.store.jobs && PcOf(w, t).record == w.store.jobs[PcOf(w, t).id])
  }

  ghost predicate Paced(w: World) {
    && (forall id, loc :: PacedAt(w, id, loc)) && (forall t :: TookBefore(w, t))
    && w.taken.Keys <= w.store.jobs.Keys
  }

  // ---------------------------------------------------------------- threads

  /** A job's dequeues are written by its add, by taking it and by its retry. */
  lemma {:induction false} TimesKept(w: World, c: Command, id: Id)
    requires Enabled(w, c) && Times(Step(w, c), id) != Times(w, id)
    ensures (c.choice.BeginAdd? && c.choice.id == id)
         || (c.choice == Continue && PcOf(w, c.thread) == RetryRecord(id))
         || TransferOf(w, c) == Moves(id, Some(InWaiting), InActive)
  {
  }

  lemma {:induction false} OthersKeepWork(w: World, c: Command, t: Thread, id: Id)
    requires Enabled(w, c) && Sound(w) && !Misses(w, c) && t != c.thread && Working(PcOf(w, t)) == Some(id)
    ensures Times(Step(w, c), id) == Times(w, id)
    ensures id in w.store.jobs && id in Step(w, c).store.jobs && Step(w, c).store.jobs[id] == w.store.jobs[id]
  {
    var w' := Step(w, c);
    assert OwnedActive(w, t) && Recorded(w, id) && Alone(w, id);
    assert PcOf(w', t) == PcOf(w, t) && PcOf(w', c.thread) == Effect(w, c).2;
    var loc := if Owned(PcOf(w, t)).Some? then InActive else Flight(t);
    assert At(w, id, loc) && !At(w, id, InWaiting) && !At(w, id, Flight(c.thread));
    if Times(w', id) != Times(w, id) {
      TimesKept(w, c, id);
    }
    StepKeepsOwners(w, c, t);
    StepUniqueIff(w, c);
    WritesCarried(w, c);
    assert At(w', id, loc) && Alone(w', id);
    assert !At(w', id, Flight(c.thread));
  }

  lemma {:induction false} OwnWork(w: World, c: Command)
    requires Enabled(w, c) && Working(Effect(w, c).2).Some?
    ensures var id := Working(Effect(w, c).2).value;
            (Working(PcOf(w, c.thread)) == Some(id) && Times(Step(w, c), id) == Times(w, id))
            || (id in w.store.waiting && Times(Step(w, c), id) == Times(w, id) + [c.now])
  {
  }

  lemma {:induction false} OwnReads(w: World, c: Command)
    requires Enabled(w, c) && Effect(w, c).2.Failing?
    requires PcOf(w, c.thread).Holding? && PcOf(w, c.thread).id in w.store.jobs
    ensures var id := Effect(w, c).2.id;
            id in Effect(w, c).0.jobs && Effect(w, c).2.record == Effect(w, c).0.jobs[id]
  {
  }

  lemma {:induction false} FailingIsBegun(w: World, c: Command)
    requires Enabled(w, c) && Effect(w, c).2.Failing?
    ensures c.choice.Fail? && PcOf(w, c.thread).Holding?
  {
  }

  lemma {:induction false} StepKeepsTook(w: World, c: Command, t: Thread)
    requires Enabled(w, c) && Sound(w) && Paced(w) && !Misses(w, c)
    ensures TookBefore(Step(w, c), t)
  {
    var w' := Step(w, c);
    assert TookBefore(w, t);
    if t != c.thread {
      assert PcOf(w', t) == PcOf(w, t) && Seen(w', t) == Seen(w, t);
      if Working(PcOf(w, t)).Some? {
        OthersKeepWork(w, c, t, Working(PcOf(w, t)).value);
      }
    } else {
      assert PcOf(w', t) == Effect(w, c).2 && Seen(w', t) == c.now;
      if Working(Effect(w, c).2).Some? {
        OwnWork(w, c);
      }
      if Effect(w, c).2.Failing? {
        FailingIsBegun(w, c);
        var id := PcOf(w, t).id;
        assert OwnedActive(w, t) && At(w, id, InActive) && Recorded(w, id);
        OwnReads(w, c);
      }
    }
  }

  // ---------------------------------------------------------------- jobs

  /** Taking a waiting job that is due leaves its backoff behind it. */
  lemma {:induction false} TakenIsPaced(w: World, c: Command, id: Id)
    requires Enabled(w, c) && TransferOf(w, c) == Moves(id, Some(InWaiting), InActive)
    requires At(w, id, InWaiting) && PacedAt(w, id, InWaiting) && DueNow(w, id)
    ensures PacedAt(Step(w, c), id, InActive)
  {
    var d := Times(w, id);
    assert Times(Step(w, c), id) == d + [c.now];
    assert Step(w, c).store.jobs == w.store.jobs;
  }

  /** The job was carried there, or taken out of there, with its record as it is now. */
  lemma {:induction false} MovedIsPaced(w: World, c: Command, id: Id)
    requires Enabled(w, c) && Sound(w) && Paced(w) && !Misses(w, c)
    requires TransferOf(w, c).Moves? && TransferOf(w, c).id == id
    requires TransferOf(w, c).from.Some? && TransferOf(w, c).to != InActive
    ensures PacedAt(Step(w, c), id, TransferOf(w, c).to)
  {
    var m := TransferOf(w, c);
    FoundUnlessMissed(w, c);
    assert PacedAt(w, id, m.from.value) && TookBefore(w, c.thread);
    MovesKeepTaken(w, c);
    if c.choice == Continue && InFail(PcOf(w, c.thread)) {
      FailMovesKeepJobs(w, c);
      FailMovedIsPaced(w, c, id);
    } else {
      if c.choice == Continue { MovesKeepJobs(w, c); }
      RestMovedIsPaced(w, c, id);
    }
  }

  lemma {:induction false} FailMovedIsPaced(w: World, c: Command, id: Id)
    requires Enabled(w, c) && c.choice == Continue && InFail(PcOf(w, c.thread))
    requires TransferOf(w, c).Moves? && TransferOf(w, c).id == id && TransferOf(w, c).from.Some?
    requires At(w, id, TransferOf(w, c).from.value) && PacedAt(w, id, TransferOf(w, c).from.value) && TookBefore(w, c.thread)
    requires Step(w, c).taken == w.taken && Step(w, c).store.jobs == w.store.jobs
    ensures PacedAt(Step(w, c), id, TransferOf(w, c).to)
  {
    assert PcOf(Step(w, c), c.thread) == Effect(w, c).2;
  }

  lemma {:induction false} RestMovedIsPaced(w: World, c: Command, id: Id)
    requires Enabled(w, c) && !(c.choice == Continue && InFail(PcOf(w, c.thread)))
    requires TransferOf(w, c).Moves? && TransferOf(w, c).id == id
    requires TransferOf(w, c).from.Some? && TransferOf(w, c).to != InActive
    requires At(w, id, TransferOf(w, c).from.value) && PacedAt(w, id, TransferOf(w, c).from.value)
    requires Step(w, c).taken == w.taken && Step(w, c).store.jobs == w.store.jobs
    ensures PacedAt(Step(w, c), id, TransferOf(w, c).to)
  {
    assert PcOf(Step(w, c), c.thread) == Effect(w, c).2;
  }

  lemma {:induction false} MovesKeepTaken(w: World, c: Command)
    requires Enabled(w, c) && TransferOf(w, c).Moves? && TransferOf(w, c).from.Some? && TransferOf(w, c).to != InActive
    ensures Step(w, c).taken == w.taken
  {
  }

  lemma {:induction false} FailMovesKeepJobs(w: World, c: Command)
    requires Enabled(w, c) && c.choice == Continue && InFail(PcOf(w, c.thread)) && TransferOf(w, c).Moves?
    ensures Effect(w, c).0.jobs == w.store.jobs
  {
  }

  lemma {:induction false} MovesKeepJobs(w: World, c: Command)
    requires Enabled(w, c) && c.choice == Continue && !InFail(PcOf(w, c.thread)) && TransferOf(w, c).Moves?
    ensures Effect(w, c).0.jobs == w.store.jobs
  {
  }

  lemma {:induction false} AddedIsPaced(w: World, c: Command, id: Id)
    requires Enabled(w, c) && TransferOf(w, c).Moves? && TransferOf(w, c).id == id && TransferOf(w, c).from.None?
    ensures PacedAt(Step(w, c), id, Flight(c.thread))
  {
    assert PcOf(Step(w, c), c.thread) == Effect(w, c).2;
  }

  lemma {:induction false} SamePaced(w: World, w': World, id: Id, loc: Loc)
    requires At(w, id, loc) && PacedAt(w, id, loc)
    requires id in w'.store.jobs && w'.store.jobs[id] == w.store.jobs[id] && Times(w', id) == Times(w, id)
    requires loc.Flight? ==> PcOf(w', loc.thread) == PcOf(w, loc.thread)
    ensures PacedAt(w', id, loc)
  {
  }

  lemma {:induction false} UntouchedTimes(w: World, c: Command, id: Id, loc: Loc)
    requires Enabled(w, c) && Sound(w) && At(w, id, loc) && loc != Flight(c.thread)
    requires !(TransferOf(w, c).Moves? && TransferOf(w, c).id == id)
    ensures Times(Step(w, c), id) == Times(w, id)
  {
    assert Alone(w, id) && Recorded(w, id);
    assert !At(w, id, Flight(c.thread));
    if Times(Step(w, c), id) != Times(w, id) {
      TimesKept(w, c, id);
    }
  }

  /** A job that stays where it is, with a thread that does not write its record. */
  lemma {:induction false} UntouchedIsPaced(w: World, c: Command, id: Id, loc: Loc)
    requires Enabled(w, c) && Sound(w) && PacedAt(w, id, loc) && At(w, id, loc) && loc != Flight(c.thread)
    requires !(TransferOf(w, c).Moves? && TransferOf(w, c).id == id)
    requires Carried(Effect(w, c).2) != Some(id)
    ensures PacedAt(Step(w, c), id, loc)
  {
    UntouchedTimes(w, c, id, loc);
    WritesCarried(w, c);
    assert loc.Flight? ==> PcOf(Step(w, c), loc.thread) == PcOf(w, loc.thread);
    SamePaced(w, Step(w, c), id, loc);
  }

  /** A job its thread keeps carrying: the writes of `fail` and `retryDLQ`. */
  lemma {:induction false} LoggedIsPaced(w: World, c: Command, id: Id)
    requires Enabled(w, c) && c.choice == Continue && Carried(PcOf(w, c.thread)) == Some(id)
    requires PcOf(w, c.thread).FailLogging? || PcOf(w, c.thread).FailStatus?
    requires PacedAt(w, id, Flight(c.thread)) && TookBefore(w, c.thread)
    ensures PacedAt(Step(w, c), id, Flight(c.thread))
  {
    assert PcOf(Step(w, c), c.thread) == Effect(w, c).2;
    assert Times(Step(w, c), id) == Times(w, id);
  }

  lemma {:induction false} RetriedIsPaced(w: World, c: Command, id: Id)
    requires Enabled(w, c) && c.choice == Continue && Carried(PcOf(w, c.thread)) == Some(id)
    requires PcOf(w, c.thread).CompletingRecord? || PcOf(w, c.thread).RetryRecord?
    requires PacedAt(w, id, Flight(c.thread))
    ensures PacedAt(Step(w, c), id, Flight(c.thread))
  {
    assert PcOf(Step(w, c), c.thread) == Effect(w, c).2;
  }

  lemma {:induction false} StaysCarried(w: World, c: Command, id: Id)
    requires Enabled(w, c) && Carried(PcOf(w, c.thread)) == Some(id) && TransferOf(w, c) == Stays
    ensures c.choice == Continue
    ensures PcOf(w, c.thread).FailLogging? || PcOf(w, c.thread).FailStatus?
         || PcOf(w, c.thread).CompletingRecord? || PcOf(w, c.thread).RetryRecord?
  {
  }

  lemma {:induction false} StepKeepsPacedAt(w: World, c: Command, id: Id, loc: Loc)
    requires Enabled(w, c) && Sound(w) && Paced(w) && AllDue(w) && !Misses(w, c)
    ensures PacedAt(Step(w, c), id, loc)
  {
    var w', m := Step(w, c), TransferOf(w, c);
    if At(w', id, loc) {
      StepUniqueIff(w, c);
      Relocates(w, c, id, loc);
      assert Alone(w', id) && DueNow(w, id);
      assert PcOf(w', c.thread) == Effect(w, c).2;
      if m.Moves? && m.id == id {
        Relocates(w, c, id, m.to);
        FoundUnlessMissed(w, c);
        if m.from.None? {
          AddedIsPaced(w, c, id);
        } else if m.to == InActive {
          OnlyPopsToActive(w, c);
          TakenIsPaced(w, c, id);
        } else {
          MovedIsPaced(w, c, id);
        }
      } else {
        assert PacedAt(w, id, loc);
        StayedIsPaced(w, c, id, loc);
      }
    }
  }

  lemma {:induction false} OnlyPopsToActive(w: World, c: Command)
    requires Enabled(w, c) && TransferOf(w, c).Moves? && TransferOf(w, c).to == InActive
    ensures TransferOf(w, c).from == Some(InWaiting)
  {
  }

  lemma {:induction false} StayedIsPaced(w: World, c: Command, id: Id, loc: Loc)
    requires Enabled(w, c) && Sound(w) && Paced(w) && Unique(Step(w, c)) && At(w, id, loc) && At(Step(w, c), id, loc)
    requires !(TransferOf(w, c).Moves? && TransferOf(w, c).id == id)
    ensures PacedAt(Step(w, c), id, loc)
  {
    var w' := Step(w, c);
    assert PacedAt(w, id, loc) && TookBefore(w, c.thread) && Alone(w', id) && Alone(w, id);
    assert PcOf(w', c.thread) == Effect(w, c).2;
    if loc == Flight(c.thread) {
      OneTransfer(w, c, id);
      StaysCarried(w, c, id);
      if InFail(PcOf(w, c.thread)) {
        LoggedIsPaced(w, c, id);
      } else {
        RetriedIsPaced(w, c, id);
      }
    } else {
      assert Carried(Effect(w, c).2) == Some(id) ==> At(w', id, Flight(c.thread));
      UntouchedIsPaced(w, c, id, loc);
    }
  }

  /** A thread that carries a job moves no other. */
  lemma {:induction false} OneTransfer(w: World, c: Command, id: Id)
    requires Enabled(w, c) && Carried(PcOf(w, c.thread)) == Some(id)
    ensures TransferOf(w, c).Moves? ==> TransferOf(w, c).id == id
  {
  }

  lemma {:induction false} StepKeepsPaced(w: World, c: Command)
    requires Enabled(w, c) && Sound(w) && Paced(w) && AllDue(w) && !Misses(w, c)
    ensures Paced(Step(w, c))
  {
    forall id, loc ensures PacedAt(Step(w, c), id, loc) { StepKeepsPacedAt(w, c, id, loc); }
    forall t ensures TookBefore(Step(w, c), t) { StepKeepsTook(w, c, t); }
    StepKeepsTakenKnown(w, c);
  }

  lemma {:induction false} StepKeepsTakenKnown(w: World, c: Command)
    requires Enabled(w, c) && Sound(w) && w.taken.Keys <= w.store.jobs.Keys
    ensures Step(w, c).taken.Keys <= Step(w, c).store.jobs.Keys
  {
    JobsOnlyGrow(w, c);
    forall id | id in Step(w, c).taken && id !in w.taken ensures id in Step(w, c).store.jobs {
      assert Recorded(w, id);
      assert At(w, id, InWaiting) <==> id in w.store.waiting;
      NewlyCounted(w, c, id);
    }
  }

  lemma {:induction false} NewlyCounted(w: World, c: Command, id: Id)
    requires Enabled(w, c) && id in Taken(w, c) && id !in w.taken
    ensures id in w.store.waiting
         || (c.choice.BeginAdd? && c.choice.id == id)
         || (c.choice == Continue && PcOf(w, c.thread) == RetryRecord(id))
  {
  }

  lemma {:induction false} PacedThroughout(w: World, cs: seq<Command>)
    requires Sound(w) && Paced(w) && Trace(w, cs) && NeverMisses(w, cs) && AlwaysDue(w, cs)
    ensures Sound(Exec(w, cs)) && Paced(Exec(w, cs))
    decreases |cs|
  {
    if cs != [] {
      StepKeepsSound(w, cs[0]);
      StepKeepsPaced(w, cs[0]);
      PacedThroughout(Step(w, cs[0]), cs[1..]);
    }
  }

  lemma {:induction false} PacedTimes(w: World, id: Id)
    requires NoneLost(w) && Paced(w)
    ensures Spaced(Times(w, id))
    ensures id in w.store.jobs ==> |Times(w, id)| <= Tries(w.store.jobs[id])
  {
    if id in w.store.jobs {
      assert Somewhere(w, id);
      var loc :| At(w, id, loc);
      assert PacedAt(w, id, loc);
    }
  }

  /** The backoff under interleaving: in a run whose removals never miss and whose promotions are
      never early, the (n+1)-th dequeue of a job since its add or last retry comes at least 2^n s
      after the n-th and 1000(2^(n+1) - 2) ms after the first, and none exceeds its attempts. */
  lemma {:induction false} BackoffUnderInterleaving(cs: seq<Command>, id: Id)
    requires Trace(START, cs) && NeverMisses(START, cs) && NeverEarly(START, cs)
    ensures var w := Exec(START, cs);
            var d := Times(w, id);
            && BacksOff(d)
            && (id in w.store.jobs ==> |d| <= Tries(w.store.jobs[id]))
  {
    DueIffNeverEarly(cs);
    PacedThroughout(START, cs);
    PacedTimes(Exec(START, cs), id);
    SpacedBacksOff(Times(Exec(START, cs), id));
  }
}
