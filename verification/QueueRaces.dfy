/** Concrete interleavings of two clients in which the queue's promises fail. Thread 0 always runs
    whole operations; thread 1 stops between reading and acting. */
module QueueRaces {
  import opened Optional
  import opened Ordering
  import opened QueueModel
  import opened QueueCommands
  import opened QueueSolo
  import opened QueueTiming

  ghost predicate Path(cs: seq<Command>, w: World) {
    Trace(START, cs) && Exec(START, cs) == w && SeenBefore(w)
  }

  lemma {:induction false} Append(cs: seq<Command>, w: World, cs': seq<Command>, w': World, t: Thread)
    requires Path(cs, w) && Solo(w, cs', w', t)
    ensures Path(cs + cs', w')
    ensures forall u: Thread | u != t :: PcOf(w', u) == PcOf(w, u)
  {
    Joined(START, cs, w, cs');
    forall u: Thread | u != t ensures PcOf(w', u) == PcOf(w, u) {
      SoloKeepsOthers(w, cs', w', t, u);
    }
  }

  /** Thread 1 executes one more command. */
  lemma {:induction false} Other(cs: seq<Command>, w: World, choice: Choice, now: int) returns (cs': seq<Command>, w': World)
    requires Path(cs, w) && w.clock <= now && Enabled(w, Command(1, choice, now, now))
    ensures Path(cs', w') && w'.clock == now && PcOf(w', 0) == PcOf(w, 0)
    ensures var c := Command(1, choice, now, now);
            w'.store == Effect(w, c).0 && PcOf(w', 1) == Effect(w, c).2
  {
    var one;
    one, w' := Then(w, [], w, 1, choice, now);
    Append(cs, w, one, w', 1);
    cs' := cs + one;
  }

  function NewSample(maxAttempts: int, runAt: int): Job {
    Job("mail", "{}", 0, maxAttempts, 0, 300_000, 0, runAt, Waiting, None, None, None, [])
  }

  lemma {:induction false} TakesOnlyWaiting(s: Store, tPromote: int, tStart: int)
    requires s.waiting == map["a" := 0] && s.delayed == map[]
    ensures Due(s.delayed, tPromote) == {}
    ensures Dequeued(s, tPromote, tStart) == (s.(waiting := map[], active := s.active["a" := tStart]), Some("a"))
  {
    assert Due(s.delayed, tPromote) == {} && ZeroScored(s.waiting, {}) == s.waiting;
    assert IsFirst(s.waiting, "a") && s.waiting - {"a"} == map[];
  }

  lemma {:induction false} TakesOnlyDelayed(s: Store, tPromote: int, tStart: int)
    requires s.waiting == map[] && s.delayed == map["a" := 5] && tPromote >= 5
    ensures Due(s.delayed, tPromote) == {"a"}
    ensures Dequeued(s, tPromote, tStart) == (s.(delayed := map[], active := s.active["a" := tStart]), Some("a"))
  {
    assert Due(s.delayed, tPromote) == {"a"} && ZeroScored(s.waiting, {"a"}) == map["a" := 0];
    assert s.delayed - {"a"} == map[];
    assert IsFirst(map["a" := 0], "a") && map["a" := 0] - {"a"} == s.waiting;
  }

  // ---------------------------------------------------------------- two promotions

  /** Job "a" is added with a delay of 5. At 5 thread 1 reads it as due; thread 0 promotes and
      takes it. */
  lemma {:induction false} ReadThenTaken() returns (cs: seq<Command>, w: World)
    ensures Path(cs, w) && w.clock == 5
    ensures PcOf(w, 0) == Holding("a") && PcOf(w, 1) == Promoting(["a"], 5, false)
    ensures w.store == Store(map[], map["a" := 5], map[], map[], [], map["a" := NewSample(3, 5)])
  {
    var cs0, w0 := SoloAdd(START, 0, "a", NewSample(3, 5), 0);
    SoloKeepsOthers(START, cs0, w0, 0, 1);
    TakesOnlyDelayed(w0.store, 5, 5);
    var cs1, w1 := Other(cs0, w0, BeginDequeue(["a"]), 5);
    var cs2, w2 := SoloDequeue(w1, 0, ["a"], 5, 5);
    Append(cs1, w1, cs2, w2, 0);
    cs, w := cs1 + cs2, w2;
  }

  /** Thread 1's ZREM then finds nothing, but its ZADD puts the job back into waiting while it is
      active: it will be run twice. */
  lemma {:induction false} DoublePromotion() returns (cs: seq<Command>)
    ensures Trace(START, cs)
    ensures "a" in Exec(START, cs).store.waiting && "a" in Exec(START, cs).store.active
  {
    var w;
    cs, w := ReadThenTaken();
    var cs1, w1 := SoloPromoteOne(w, [], w, 1, 5);
    Append(cs, w, cs1, w1, 1);
    cs := cs + cs1;
  }

  /** Here the job fails first, so thread 1's ZREM does find it, delayed until 2006; thread 1
      promotes the job at once all the same. No removal misses, yet the job is waiting at time 6
      and the backoff is lost. */
  lemma {:induction false} EarlyPromotion() returns (cs: seq<Command>)
    ensures Trace(START, cs) && Exec(START, cs).clock == 6
    ensures var s := Exec(START, cs).store;
            "a" in s.waiting && "a" in s.jobs && s.jobs["a"].runAt == 2006
    ensures !AllDue(Exec(START, cs))
  {
    var w;
    cs, w := FailedMeanwhile();
    var cs1, w1 := SoloPromoteOne(w, [], w, 1, 6);
    Append(cs, w, cs1, w1, 1);
    cs := cs + cs1;
    assert !DueNow(w1, "a");
  }

  lemma {:induction false} FailedMeanwhile() returns (cs: seq<Command>, w: World)
    ensures Path(cs, w) && w.clock == 6 && PcOf(w, 1) == Promoting(["a"], 5, false)
    ensures w.store.delayed == map["a" := 2006] && "a" in w.store.jobs && w.store.jobs["a"].runAt == 2006
  {
    assert Backoff(1) == 2000;
    cs, w := ReadThenTaken();
    var cs1, w1 := SoloFail(w, 0, "a", "boom", 6, 6);
    Append(cs, w, cs1, w1, 0);
    cs, w := cs + cs1, w1;
  }

  // ---------------------------------------------------------------- two retries

  lemma {:induction false} TakenOnce() returns (cs: seq<Command>, w: World)
    ensures Path(cs, w) && w.clock == 0 && PcOf(w, 0) == Holding("a") && PcOf(w, 1) == Idle
    ensures w.store == Store(map[], map["a" := 0], map[], map[], [], map["a" := NewSample(1, 0)])
  {
    var cs0, w0 := SoloAdd(START, 0, "a", NewSample(1, 0), 0);
    SoloKeepsOthers(START, cs0, w0, 0, 1);
    TakesOnlyWaiting(w0.store, 0, 0);
    var cs1, w1 := SoloDequeue(w0, 0, [], 0, 0);
    Append(cs0, w0, cs1, w1, 0);
    cs, w := cs0 + cs1, w1;
  }

  lemma {:induction false} Buried() returns (cs: seq<Command>, w: World)
    ensures Path(cs, w) && w.clock == 6 && PcOf(w, 0) == Idle && PcOf(w, 1) == Idle
    ensures w.store.waiting == map[] && w.store.active == map[] && w.store.delayed == map[] && w.store.dlq == map["a" := 6]
    ensures "a" in w.store.jobs
  {
    cs, w := TakenOnce();
    var cs1, w1 := SoloFail(w, 0, "a", "boom", 6, 6);
    assert map["a" := 0] - {"a"} == map[];
    Append(cs, w, cs1, w1, 0);
    cs, w := cs + cs1, w1;
  }

  lemma {:induction false} FoundThenRetaken() returns (cs: seq<Command>, w: World)
    ensures Path(cs, w) && w.clock == 6 && PcOf(w, 1) == RetryRemoving("a")
    ensures w.store.active == map["a" := 6] && w.store.dlq == map[] && "a" in w.store.jobs
  {
    cs, w := Buried();
    cs, w := Other(cs, w, BeginRetry("a"), 6);
    var cs1, w1 := SoloRetry(w, 0, "a", 6);
    assert map["a" := 6] - {"a"} == map[];
    Append(cs, w, cs1, w1, 0);
    cs, w := cs + cs1, w1;
    TakesOnlyWaiting(w.store, 6, 6);
    var cs2, w2 := SoloDequeue(w, 0, [], 6, 6);
    Append(cs, w, cs2, w2, 0);
    cs, w := cs + cs2, w2;
  }

  /** A run without a single promotion: both threads find job "a" in the dead-letter queue; thread 0
      retries and retakes it, then thread 1's ZREM finds nothing and its ZADD puts the job back into
      waiting while it is active. */
  lemma {:induction false} DoubleRetry() returns (cs: seq<Command>)
    ensures Trace(START, cs)
    ensures "a" in Exec(START, cs).store.waiting && "a" in Exec(START, cs).store.active
  {
    var w;
    cs, w := FoundThenRetaken();
    var cs1, w1 := SoloRemoveRetried(w, [], w, 1, "a", 6);
    cs1, w1 := SoloRequeue(w, cs1, w1, 1, "a", 6);
    Append(cs, w, cs1, w1, 1);
    cs := cs + cs1;
  }
}
