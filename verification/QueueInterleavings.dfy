/** What holds of every interleaving of queue clients: no job is ever lost; and a job is in exactly
    one place at all times just when no promotion or retry removes a member that is already gone. */
module QueueInterleavings {
  import opened Optional
  import opened Ordering
  import opened QueueModel
  import opened QueueCommands

  // ---------------------------------------------------------------- never lost

  ghost predicate Somewhere(w: World, id: Id) {
    exists loc :: At(w, id, loc)
  }

  ghost predicate NoneLost(w: World) {
    forall id | id in w.store.jobs :: Somewhere(w, id)
  }

  /** Only the record of a job the thread carries is written. */
  ghost predicate WritesOnlyCarried(w: World, c: Command)
    requires Enabled(w, c)
  {
    var (s, _, pc) := Effect(w, c);
    forall id | Carried(pc) != Some(id) ::
      && (id in s.jobs <==> id in w.store.jobs)
      && (id in s.jobs ==> s.jobs[id] == w.store.jobs[id])
  }

  lemma {:induction false} WritesInFail(w: World, c: Command)
    requires Enabled(w, c) && c.choice == Continue && InFail(PcOf(w, c.thread))
    ensures WritesOnlyCarried(w, c)
  {
    if PcOf(w, c.thread).Failing? || PcOf(w, c.thread).FailQueueing? {
      FailMovesWriteNothing(w, c);
    } else {
      FailWritesOwn(w, c, PcOf(w, c.thread).id);
    }
  }

  lemma {:induction false} FailMovesWriteNothing(w: World, c: Command)
    requires Enabled(w, c) && c.choice == Continue
    requires PcOf(w, c.thread).Failing? || PcOf(w, c.thread).FailQueueing?
    ensures Effect(w, c).0.jobs == w.store.jobs
  {
  }

  lemma {:induction false} FailWritesOwn(w: World, c: Command, id: Id)
    requires Enabled(w, c) && c.choice == Continue
    requires (PcOf(w, c.thread).FailLogging? || PcOf(w, c.thread).FailStatus?) && PcOf(w, c.thread).id == id
    ensures Carried(Effect(w, c).2) == Some(id) && id in Effect(w, c).0.jobs
    ensures Effect(w, c).0.jobs == w.store.jobs[id := Effect(w, c).0.jobs[id]]
  {
  }

  lemma {:induction false} WritesInRest(w: World, c: Command)
    requires Enabled(w, c) && c.choice == Continue && !InFail(PcOf(w, c.thread))
    ensures WritesOnlyCarried(w, c)
  {
    if !PcOf(w, c.thread).CompletingRecord? && !PcOf(w, c.thread).RetryRecord? {
      assert Effect(w, c).0.jobs == w.store.jobs;
    }
  }

  lemma {:induction false} WritesCarried(w: World, c: Command)
    requires Enabled(w, c)
    ensures WritesOnlyCarried(w, c)
  {
    if c.choice == Continue && InFail(PcOf(w, c.thread)) {
      WritesInFail(w, c);
    } else if c.choice == Continue {
      WritesInRest(w, c);
    }
  }

  lemma {:induction false} RecordsOfCarried(w: World, c: Command, id: Id)
    requires Enabled(w, c) && id in Step(w, c).store.jobs && id !in w.store.jobs
    ensures At(Step(w, c), id, Flight(c.thread))
  {
    WritesCarried(w, c);
    assert PcOf(Step(w, c), c.thread) == Effect(w, c).2;
  }

  lemma {:induction false} StepLosesNone(w: World, c: Command)
    requires Enabled(w, c) && NoneLost(w)
    ensures NoneLost(Step(w, c))
  {
    var w' := Step(w, c);
    forall id | id in w'.store.jobs ensures Somewhere(w', id) {
      if id !in w.store.jobs {
        RecordsOfCarried(w, c, id);
        assert At(w', id, Flight(c.thread));
      } else {
        var loc :| At(w, id, loc);
        Relocates(w, c, id, loc);
        var m := TransferOf(w, c);
        if m.Moves? {
          Relocates(w, c, id, m.to);
        }
      }
    }
  }

  /** Under every interleaving of commands of any number of clients, every added job is
      waiting, active, delayed, in the dead-letter queue, completed, or carried by a client
      whose next insert is still to come. */
  lemma {:induction false} NeverLost(w: World, cs: seq<Command>)
    requires NoneLost(w) && Trace(w, cs)
    ensures NoneLost(Exec(w, cs))
    decreases |cs|
  {
    if cs != [] {
      StepLosesNone(w, cs[0]);
      NeverLost(Step(w, cs[0]), cs[1..]);
    }
  }

  // ---------------------------------------------------------------- exactly one place

  ghost predicate Alone(w: World, id: Id) {
    forall l1, l2 | At(w, id, l1) && At(w, id, l2) :: l1 == l2
  }

  ghost predicate Unique(w: World) {
    forall id :: Alone(w, id)
  }

  /** A ZREM of a promotion or retry that finds nothing; the code does not look at its reply. */
  predicate Misses(w: World, c: Command)
    requires Enabled(w, c)
  {
    c.choice == Continue &&
    match PcOf(w, c.thread)
    case Promoting(due, _, removed) => !removed && due[0] !in w.store.delayed
    case RetryRemoving(id) => id !in w.store.dlq
    case _ => false
  }

  /** The job a thread works on, from the Lua script to the ZREM from active. */
  function Owned(pc: Pc): Option<Id> {
    match pc
    case Fetching(id) => Some(id)
    case Holding(id) => Some(id)
    case Failing(id, _, _) => Some(id)
    case _ => None
  }

  ghost predicate OwnedActive(w: World, t: Thread) {
    Owned(PcOf(w, t)).Some? ==> Owned(PcOf(w, t)).value in w.store.active
  }

  ghost predicate OneOwner(w: World, t1: Thread, t2: Thread) {
    Owned(PcOf(w, t1)).Some? && Owned(PcOf(w, t1)) == Owned(PcOf(w, t2)) ==> t1 == t2
  }

  ghost predicate Known(w: World, t: Thread) {
    match PcOf(w, t)
    case Promoting(due, _, removed) => forall i | 0 <= i < |due| :: due[i] in w.store.jobs
    case RetryRemoving(id) => id in w.store.jobs
    case _ => true
  }

  ghost predicate Recorded(w: World, id: Id) {
    forall loc | At(w, id, loc) :: id in w.store.jobs
  }

  ghost predicate Good(w: World) {
    && Unique(w)
    && (forall id :: Recorded(w, id))
    && (forall t :: OwnedActive(w, t) && Known(w, t))
    && (forall t1, t2 :: OneOwner(w, t1, t2))
  }

  /** The transferred job was where the command looked for it. */
  lemma {:induction false} FoundUnlessMissed(w: World, c: Command)
    requires Enabled(w, c) && Good(w)
    ensures var m := TransferOf(w, c);
            && (m.Moves? && m.from.Some? ==> (At(w, m.id, m.from.value) <==> !Misses(w, c)))
            && (!m.Moves? || m.from.None? ==> !Misses(w, c))
            && (m.Moves? && m.from.None? ==> m.id !in w.store.jobs)
            && (Misses(w, c) ==> m.Moves? && m.id in w.store.jobs && !At(w, m.id, m.to))
  {
    assert OwnedActive(w, c.thread) && Known(w, c.thread);
  }

  /** From a good state, one command keeps every job in at most one place if and only if
      it does not miss. */
  lemma {:induction false} StepUniqueIff(w: World, c: Command)
    requires Enabled(w, c) && Good(w) && NoneLost(w)
    ensures Unique(Step(w, c)) <==> !Misses(w, c)
  {
    var w', m := Step(w, c), TransferOf(w, c);
    FoundUnlessMissed(w, c);
    if Misses(w, c) {
      assert Somewhere(w, m.id);
      var loc :| At(w, m.id, loc);
      Relocates(w, c, m.id, loc);
      Relocates(w, c, m.id, m.to);
      assert !Alone(w', m.id);
    } else {
      forall id ensures Alone(w', id) {
        forall l1, l2 | At(w', id, l1) && At(w', id, l2) ensures l1 == l2 {
          Relocates(w, c, id, l1);
          Relocates(w, c, id, l2);
          assert Alone(w, id) && Recorded(w, id);
        }
      }
    }
  }

  /** Only its owner takes a job out of active. */
  lemma {:induction false} LeavesActive(w: World, c: Command)
    requires Enabled(w, c) && TransferOf(w, c).Moves? && TransferOf(w, c).from == Some(InActive)
    ensures Owned(PcOf(w, c.thread)) == Some(TransferOf(w, c).id) && Owned(Effect(w, c).2).None?
  {
  }

  lemma {:induction false} OwnAfter(w: World, c: Command)
    requires Enabled(w, c) && Owned(Effect(w, c).2).Some?
    ensures var id := Owned(Effect(w, c).2).value;
            || (Owned(PcOf(w, c.thread)) == Some(id) && TransferOf(w, c) == Stays)
            || TransferOf(w, c) == Moves(id, Some(InWaiting), InActive)
  {
  }

  lemma {:induction false} StepKeepsOwners(w: World, c: Command, t: Thread)
    requires Enabled(w, c) && Good(w)
    ensures OwnedActive(Step(w, c), t)
  {
    var w' := Step(w, c);
    assert OwnedActive(w, t) && OneOwner(w, t, c.thread);
    assert PcOf(w', t) == if t == c.thread then Effect(w, c).2 else PcOf(w, t);
    if Owned(PcOf(w', t)).Some? {
      Relocates(w, c, Owned(PcOf(w', t)).value, InActive);
      if t == c.thread {
        OwnAfter(w, c);
      } else if TransferOf(w, c).Moves? && TransferOf(w, c).from == Some(InActive) {
        LeavesActive(w, c);
      }
    }
  }

  lemma {:induction false} StepKeepsOneOwner(w: World, c: Command, t1: Thread, t2: Thread)
    requires Enabled(w, c) && Good(w)
    ensures OneOwner(Step(w, c), t1, t2)
  {
    var w' := Step(w, c);
    assert OneOwner(w, t1, t2) && OwnedActive(w, t1) && OwnedActive(w, t2);
    assert PcOf(w', t1) == if t1 == c.thread then Effect(w, c).2 else PcOf(w, t1);
    assert PcOf(w', t2) == if t2 == c.thread then Effect(w, c).2 else PcOf(w, t2);
    if c.choice == Continue && PcOf(w, c.thread).Popping? && w.store.waiting.Keys != {} {
      var id := First(w.store.waiting);
      assert Alone(w, id) && At(w, id, InWaiting);
      assert !At(w, id, InActive);
    }
  }

  lemma {:induction false} StepKeepsKnown(w: World, c: Command, t: Thread)
    requires Enabled(w, c) && Good(w)
    ensures Known(Step(w, c), t)
  {
    var w' := Step(w, c);
    assert Known(w, t);
    assert PcOf(w', t) == if t == c.thread then Effect(w, c).2 else PcOf(w, t);
    JobsOnlyGrow(w, c);
    if c.choice.BeginDequeue? && t == c.thread {
      forall i | 0 <= i < |c.choice.due| ensures c.choice.due[i] in w.store.jobs {
        assert Recorded(w, c.choice.due[i]) && At(w, c.choice.due[i], InDelayed);
      }
    } else if c.choice.BeginRetry? && t == c.thread {
      assert Recorded(w, c.choice.id);
      assert c.choice.id in w.store.dlq ==> At(w, c.choice.id, InDlq);
    }
  }

  lemma {:induction false} JobsGrowInFail(w: World, c: Command, id: Id)
    requires Enabled(w, c) && c.choice == Continue && InFail(PcOf(w, c.thread))
    ensures id in w.store.jobs ==> id in Effect(w, c).0.jobs
  {
  }

  lemma {:induction false} JobsGrowInRest(w: World, c: Command, id: Id)
    requires Enabled(w, c) && c.choice == Continue && !InFail(PcOf(w, c.thread))
    ensures id in w.store.jobs ==> id in Effect(w, c).0.jobs
  {
  }

  lemma {:induction false} JobsGrow(w: World, c: Command, id: Id)
    requires Enabled(w, c)
    ensures id in w.store.jobs ==> id in Effect(w, c).0.jobs
  {
    if c.choice == Continue && InFail(PcOf(w, c.thread)) {
      JobsGrowInFail(w, c, id);
    } else if c.choice == Continue {
      JobsGrowInRest(w, c, id);
    }
  }

  lemma {:induction false} JobsOnlyGrow(w: World, c: Command)
    requires Enabled(w, c)
    ensures w.store.jobs.Keys <= Step(w, c).store.jobs.Keys
  {
    forall id | id in w.store.jobs ensures id in Step(w, c).store.jobs {
      JobsGrow(w, c, id);
    }
  }

  lemma {:induction false} StepKeepsRecorded(w: World, c: Command, id: Id)
    requires Enabled(w, c) && Good(w) && !Misses(w, c)
    ensures Recorded(Step(w, c), id)
  {
    var w', m := Step(w, c), TransferOf(w, c);
    JobsOnlyGrow(w, c);
    FoundUnlessMissed(w, c);
    forall loc | At(w', id, loc) ensures id in w'.store.jobs {
      Relocates(w, c, id, loc);
      assert Recorded(w, id);
    }
  }

  lemma {:induction false} StepKeepsGood(w: World, c: Command)
    requires Enabled(w, c) && Good(w) && NoneLost(w) && !Misses(w, c)
    ensures Good(Step(w, c))
  {
    StepUniqueIff(w, c);
    var w' := Step(w, c);
    forall id ensures Recorded(w', id) { StepKeepsRecorded(w, c, id); }
    forall t ensures OwnedActive(w', t) && Known(w', t) {
      StepKeepsOwners(w, c, t);
      StepKeepsKnown(w, c, t);
    }
    forall t1, t2 ensures OneOwner(w', t1, t2) { StepKeepsOneOwner(w, c, t1, t2); }
  }

  ghost predicate AlwaysUnique(w: World, cs: seq<Command>)
    requires Trace(w, cs)
    decreases |cs|
  {
    Unique(w) && (cs == [] || AlwaysUnique(Step(w, cs[0]), cs[1..]))
  }

  ghost predicate NeverMisses(w: World, cs: seq<Command>)
    requires Trace(w, cs)
    decreases |cs|
  {
    cs == [] || (!Misses(w, cs[0]) && NeverMisses(Step(w, cs[0]), cs[1..]))
  }

  lemma {:induction false} UniqueIffNeverMissesFrom(w: World, cs: seq<Command>)
    requires Good(w) && NoneLost(w) && Trace(w, cs)
    ensures AlwaysUnique(w, cs) <==> NeverMisses(w, cs)
    decreases |cs|
  {
    if cs != [] {
      StepUniqueIff(w, cs[0]);
      StepLosesNone(w, cs[0]);
      if !Misses(w, cs[0]) {
        StepKeepsGood(w, cs[0]);
        UniqueIffNeverMissesFrom(Step(w, cs[0]), cs[1..]);
      }
    }
  }

  /** A run keeps every job in at most one place throughout if and only if none of its
      promotions or retries removes a member that is already gone. */
  lemma {:induction false} UniqueIffNeverMisses(cs: seq<Command>)
    requires Trace(START, cs)
    ensures AlwaysUnique(START, cs) <==> NeverMisses(START, cs)
  {
    UniqueIffNeverMissesFrom(START, cs);
  }
}
