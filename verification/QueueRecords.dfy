/** The job records under interleaving: in a run without misses they always agree with the places
    of the jobs. */
module QueueRecords {
  import opened Optional
  import opened Ordering
  import opened QueueModel
  import opened QueueCommands
  import opened QueueInterleavings

  /** A job's record agrees with the structure it is in. */
  ghost predicate Agreed(w: World, id: Id) {
    id in w.store.jobs ==>
      var job := w.store.jobs[id];
      && (id in w.store.waiting || id in w.store.active || id in w.store.delayed ==> job.status == Waiting)
      && (id in w.store.delayed ==> w.store.delayed[id] == job.runAt)
      && (id in w.store.dlq ==> job.status == Failed)
      && (id in w.done ==> job.status == Completed)
  }

  /** The record of a carried job is ready for the structure it is bound for. */
  ghost predicate Prepared(w: World, t: Thread) {
    var jobs := w.store.jobs;
    match PcOf(w, t)
    case Adding(id, job) => id in jobs && jobs[id] == job && job.status == Waiting
    case Promoting(due, _, removed) => removed && due != [] ==> due[0] in jobs && jobs[due[0]].status == Waiting
    case CompletingPush(id) => id in jobs && jobs[id].status == Completed
    case FailQueueing(id, runAt) =>
      id in jobs && if runAt.None? then jobs[id].status == Failed
                    else jobs[id].status == Waiting && jobs[id].runAt == runAt.value
    case RetryQueueing(id) => id in jobs && jobs[id].status == Waiting
    case _ => true
  }

  ghost predicate Consistent(w: World) {
    (forall id :: Agreed(w, id)) && (forall t :: Prepared(w, t))
  }

  lemma {:induction false} OwnKeepsPrepared(w: World, c: Command)
    requires Enabled(w, c) && Good(w) && Consistent(w) && !Misses(w, c)
    ensures Prepared(Step(w, c), c.thread)
  {
    assert Prepared(w, c.thread) && Known(w, c.thread);
    assert PcOf(Step(w, c), c.thread) == Effect(w, c).2;
    if c.choice == Continue && PcOf(w, c.thread).Promoting? {
      assert Agreed(w, PcOf(w, c.thread).due[0]);
    }
  }

  lemma {:induction false} StepKeepsPrepared(w: World, c: Command, t: Thread)
    requires Enabled(w, c) && Good(w) && Consistent(w) && !Misses(w, c)
    ensures Prepared(Step(w, c), t)
  {
    if t == c.thread {
      OwnKeepsPrepared(w, c);
    } else {
      assert Prepared(w, t) && PcOf(Step(w, c), t) == PcOf(w, t);
      if Carried(PcOf(w, t)).Some? {
        CarriersKeepRecords(w, c, t);
      }
    }
  }

  /** Another thread's command leaves the record of a carried job alone. */
  lemma {:induction false} CarriersKeepRecords(w: World, c: Command, t: Thread)
    requires Enabled(w, c) && Good(w) && t != c.thread && !Misses(w, c)
    requires Carried(PcOf(w, t)).Some?
    ensures var id := Carried(PcOf(w, t)).value;
            && id in w.store.jobs && id in Step(w, c).store.jobs
            && Step(w, c).store.jobs[id] == w.store.jobs[id]
  {
    var id := Carried(PcOf(w, t)).value;
    assert At(w, id, Flight(t)) && Recorded(w, id) && Alone(w, id);
    WritesCarried(w, c);
    assert PcOf(Step(w, c), c.thread) == Effect(w, c).2;
    Relocates(w, c, id, Flight(c.thread));
    FoundUnlessMissed(w, c);
  }

  lemma {:induction false} StepKeepsAgreed(w: World, c: Command, id: Id)
    requires Enabled(w, c) && Good(w) && NoneLost(w) && Consistent(w) && !Misses(w, c)
    ensures Agreed(Step(w, c), id)
  {
    var w' := Step(w, c);
    StepUniqueIff(w, c);
    WritesCarried(w, c);
    assert PcOf(w', c.thread) == Effect(w, c).2;
    assert Agreed(w, id) && Prepared(w, c.thread) && Alone(w', id) && Recorded(w, id);
    if At(w', id, Flight(c.thread)) {
      assert !At(w', id, InWaiting) && !At(w', id, InActive) && !At(w', id, InDelayed) && !At(w', id, InDlq);
      if id in w'.done {
        var k :| 0 <= k < |w'.done| && w'.done[k] == id;
        assert At(w', id, Done(k));
      }
    } else {
      UncarriedAgreed(w, c, id);
    }
  }

  predicate WritesDelayed(pc: Pc) {
    pc.Adding? || pc.Promoting? || pc.FailQueueing?
  }

  lemma {:induction false} FailLeavesDelayed(w: World, c: Command)
    requires Enabled(w, c) && c.choice == Continue && InFail(PcOf(w, c.thread)) && !WritesDelayed(PcOf(w, c.thread))
    ensures Effect(w, c).0.delayed == w.store.delayed
  {
  }

  lemma {:induction false} RestLeavesDelayed(w: World, c: Command)
    requires Enabled(w, c) && c.choice == Continue && !InFail(PcOf(w, c.thread)) && !WritesDelayed(PcOf(w, c.thread))
    ensures Effect(w, c).0.delayed == w.store.delayed
  {
  }

  predicate Delays(w: World, c: Command, id: Id)
    requires Enabled(w, c)
  {
    TransferOf(w, c).Moves? && TransferOf(w, c).id == id && TransferOf(w, c).to == InDelayed
  }

  lemma {:induction false} ScoreKept(w: World, c: Command, id: Id)
    requires Enabled(w, c) && id in Effect(w, c).0.delayed && !Delays(w, c, id)
    ensures id in w.store.delayed && Effect(w, c).0.delayed[id] == w.store.delayed[id]
  {
    if c.choice == Continue && !WritesDelayed(PcOf(w, c.thread)) {
      if InFail(PcOf(w, c.thread)) {
        FailLeavesDelayed(w, c);
      } else {
        RestLeavesDelayed(w, c);
      }
    }
  }

  /** What a command puts into a structure goes by the job's record. */
  lemma {:induction false} ArrivalAgrees(w: World, c: Command, id: Id)
    requires Enabled(w, c) && Prepared(w, c.thread) && Agreed(w, id) && id in w.store.jobs
    requires TransferOf(w, c).Moves? && TransferOf(w, c).id == id
    ensures match TransferOf(w, c).to
            case InWaiting => w.store.jobs[id].status == Waiting
            case InActive => w.store.jobs[id].status == Waiting
            case InDelayed => w.store.jobs[id].status == Waiting && id in Effect(w, c).0.delayed
                              && Effect(w, c).0.delayed[id] == w.store.jobs[id].runAt
            case InDlq => w.store.jobs[id].status == Failed
            case _ => true
  {
  }

  lemma {:induction false} UncarriedAgreed(w: World, c: Command, id: Id)
    requires Enabled(w, c) && Carried(Effect(w, c).2) != Some(id)
    requires Agreed(w, id) && Prepared(w, c.thread)
    requires forall loc | At(w, id, loc) :: id in w.store.jobs
    requires WritesOnlyCarried(w, c)
    ensures Agreed(Step(w, c), id)
  {
    Relocates(w, c, id, InWaiting);
    Relocates(w, c, id, InActive);
    Relocates(w, c, id, InDlq);
    if id in w.store.jobs {
      if TransferOf(w, c).Moves? && TransferOf(w, c).id == id {
        ArrivalAgrees(w, c, id);
      }
      if id in Step(w, c).store.delayed && !Delays(w, c, id) {
        ScoreKept(w, c, id);
      }
      if id in Step(w, c).done { DoneAgrees(w, c, id); }
    }
  }

  lemma {:induction false} DoneAgrees(w: World, c: Command, id: Id)
    requires Enabled(w, c) && Agreed(w, id) && Prepared(w, c.thread)
    requires id in w.store.jobs && id in Step(w, c).done
    ensures w.store.jobs[id].status == Completed
  {
  }

  lemma {:induction false} StepKeepsConsistent(w: World, c: Command)
    requires Enabled(w, c) && Good(w) && NoneLost(w) && Consistent(w) && !Misses(w, c)
    ensures Consistent(Step(w, c))
  {
    forall id ensures Agreed(Step(w, c), id) { StepKeepsAgreed(w, c, id); }
    forall t ensures Prepared(Step(w, c), t) { StepKeepsPrepared(w, c, t); }
  }

  /** In a run without misses, every job is always in exactly one place and its record always
      agrees with it: the dead-letter queue holds the failed jobs, completion is recorded, and
      delayed scores are runAt. */
  lemma {:induction false} RecordsAgree(w: World, cs: seq<Command>)
    requires Good(w) && NoneLost(w) && Consistent(w) && Trace(w, cs) && NeverMisses(w, cs)
    ensures Good(Exec(w, cs)) && NoneLost(Exec(w, cs)) && Consistent(Exec(w, cs))
    decreases |cs|
  {
    if cs != [] {
      StepKeepsGood(w, cs[0]);
      StepLosesNone(w, cs[0]);
      StepKeepsConsistent(w, cs[0]);
      RecordsAgree(Step(w, cs[0]), cs[1..]);
    }
  }
}
