/** A queue operation whose commands no other client interrupts does to Redis exactly what the
    one-step operations of QueueModel say. */
module QueueSolo {
  import opened Optional
  import opened Ordering
  import opened QueueModel
  import opened QueueCommands

  /** `cs` takes `w` to `w'`, thread `t` alone moving. */
  ghost predicate Solo(w: World, cs: seq<Command>, w': World, t: Thread) {
    && Trace(w, cs) && Exec(w, cs) == w' && SeenBefore(w')
    && (forall i | 0 <= i < |cs| :: cs[i].thread == t)
  }

  /** One more command, its clock read as it is executed. */
  lemma {:induction false} Then(w: World, cs: seq<Command>, w': World, t: Thread, choice: Choice, now: int)
    returns (cs': seq<Command>, w'': World)
    requires Solo(w, cs, w', t) && w'.clock <= now && Enabled(w', Command(t, choice, now, now))
    ensures Solo(w, cs', w'', t) && w''.clock == now
    ensures var c := Command(t, choice, now, now);
            && w''.store == Effect(w', c).0 && w''.done == Effect(w', c).1 && PcOf(w'', t) == Effect(w', c).2
            && w''.taken == Taken(w', c)
  {
    var c := Command(t, choice, now, now);
    TraceSnoc(w, cs, c);
    StepSeenBefore(w', c);
    cs', w'' := cs + [c], Step(w', c);
  }

  lemma {:induction false} SoloKeepsOthers(w: World, cs: seq<Command>, w': World, t: Thread, u: Thread)
    requires Solo(w, cs, w', t) && u != t
    ensures PcOf(w', u) == PcOf(w, u)
    decreases |cs|
  {
    if cs != [] {
      assert forall i | 0 <= i < |cs| - 1 :: cs[1..][i] == cs[i + 1];
      SoloKeepsOthers(Step(w, cs[0]), cs[1..], w', t, u);
    }
  }

  lemma {:induction false} Joined(w: World, cs: seq<Command>, w': World, cs': seq<Command>)
    requires Trace(w, cs) && Exec(w, cs) == w' && Trace(w', cs')
    ensures Trace(w, cs + cs') && Exec(w, cs + cs') == Exec(w', cs')
    decreases |cs|
  {
    if cs == [] {
      assert [] + cs' == cs';
    } else {
      assert (cs + cs')[1..] == cs[1..] + cs';
      Joined(Step(w, cs[0]), cs[1..], w', cs');
    }
  }

  lemma {:induction false} SoloComplete(w: World, t: Thread, id: Id, result: string, now: int)
    returns (cs: seq<Command>, w': World)
    requires PcOf(w, t) == Holding(id) && SeenBefore(w) && w.clock <= now
    ensures Solo(w, cs, w', t) && PcOf(w', t) == Idle && w'.clock == now
    ensures w'.done == w.done + [id] && w'.taken == w.taken
    ensures w'.store == Finished(w.store, id, result, now)
  {
    cs, w' := Then(w, [], w, t, Complete(result), now);
    cs, w' := Then(w, cs, w', t, Continue, now);
    cs, w' := SoloPush(w, cs, w', t, id, now);
  }

  lemma {:induction false} SoloPush(w: World, cs0: seq<Command>, w0: World, t: Thread, id: Id, now: int)
    returns (cs: seq<Command>, w': World)
    requires Solo(w, cs0, w0, t) && PcOf(w0, t) == CompletingPush(id) && w0.clock <= now
    ensures Solo(w, cs, w', t) && PcOf(w', t) == Idle && w'.clock == now
    ensures w'.done == w0.done + [id] && w'.taken == w0.taken
    ensures w'.store == w0.store.(completed := Prefix([id] + w0.store.completed, HISTORY))
  {
    cs, w' := Then(w, cs0, w0, t, Continue, now);
    cs, w' := SoloTrim(w, cs, w', t, now);
  }

  lemma {:induction false} SoloTrim(w: World, cs0: seq<Command>, w0: World, t: Thread, now: int)
    returns (cs: seq<Command>, w': World)
    requires Solo(w, cs0, w0, t) && PcOf(w0, t) == CompletingTrim && w0.clock <= now
    ensures Solo(w, cs, w', t) && PcOf(w', t) == Idle && w'.clock == now
    ensures w'.done == w0.done && w'.taken == w0.taken
    ensures w'.store == w0.store.(completed := Prefix(w0.store.completed, HISTORY))
  {
    cs, w' := Then(w, cs0, w0, t, Continue, now);
  }

  /** The store between the log entry of `fail` and its verdict. */
  function AfterLog(s: Store, id: Id, job: Job): Store {
    s.(active := s.active - {id}, jobs := s.jobs[id := job])
  }

  function AfterVerdict(s: Store, id: Id, job: Job, now: int): Store {
    if job.attempts >= job.maxAttempts then
      s.(dlq := s.dlq[id := now], jobs := s.jobs[id := job.(status := Failed)])
    else
      s.(delayed := s.delayed[id := now + Backoff(job.attempts)],
         jobs := s.jobs[id := job.(status := Waiting, runAt := now + Backoff(job.attempts))])
  }

  lemma {:induction false} FailedOnceInTwo(s: Store, id: Id, error: string, tLog: int, tMove: int)
    ensures var job := Logged(Record(s.jobs, id), error, tLog);
            FailedOnce(s, id, error, tLog, tMove) == AfterVerdict(AfterLog(s, id, job), id, job, tMove)
  {
    var job := Logged(Record(s.jobs, id), error, tLog);
    Overwritten(s.jobs, id, job, job.(status := Failed));
    Overwritten(s.jobs, id, job, job.(status := Waiting, runAt := tMove + Backoff(job.attempts)));
  }

  lemma {:induction false} SoloFail(w: World, t: Thread, id: Id, error: string, tLog: int, tMove: int)
    returns (cs: seq<Command>, w': World)
    requires PcOf(w, t) == Holding(id) && SeenBefore(w) && w.clock <= tLog <= tMove
    ensures Solo(w, cs, w', t) && PcOf(w', t) == Idle && w'.clock == tMove
    ensures w'.done == w.done && w'.taken == w.taken
    ensures w'.store == FailedOnce(w.store, id, error, tLog, tMove)
  {
    var job := Logged(Record(w.store.jobs, id), error, tLog);
    var cs0, w0 := SoloLog(w, t, id, job, error, tLog, tMove);
    cs, w' := SoloJudge(w, cs0, w0, t, id, job, tMove);
    cs, w' := SoloQueueFailed(w, cs, w', t, id, DelayAfter(job, tMove), tMove);
    VerdictInTwo(w0.store, id, job, tMove);
    FailedOnceInTwo(w.store, id, error, tLog, tMove);
  }

  function DelayAfter(job: Job, now: int): Option<int> {
    if job.attempts >= job.maxAttempts then None else Some(now + Backoff(job.attempts))
  }

  function Judged(job: Job, now: int): Job {
    if job.attempts >= job.maxAttempts then job.(status := Failed)
    else job.(status := Waiting, runAt := now + Backoff(job.attempts))
  }

  function AfterQueueing(s: Store, id: Id, runAt: Option<int>, now: int): Store {
    if runAt.None? then s.(dlq := s.dlq[id := now]) else s.(delayed := s.delayed[id := runAt.value])
  }

  lemma {:induction false} VerdictInTwo(s: Store, id: Id, job: Job, now: int)
    ensures AfterQueueing(s.(jobs := s.jobs[id := Judged(job, now)]), id, DelayAfter(job, now), now)
         == AfterVerdict(s, id, job, now)
  {
  }

  lemma {:induction false} SoloJudge(w: World, cs0: seq<Command>, w0: World, t: Thread, id: Id, job: Job, now: int)
    returns (cs: seq<Command>, w': World)
    requires Solo(w, cs0, w0, t) && PcOf(w0, t) == FailStatus(id, job) && id in w0.store.jobs && w0.store.jobs[id] == job
    requires w0.clock <= now
    ensures Solo(w, cs, w', t) && PcOf(w', t) == FailQueueing(id, DelayAfter(job, now)) && w'.clock == now
    ensures w'.done == w0.done && w'.taken == w0.taken
    ensures w'.store == w0.store.(jobs := w0.store.jobs[id := Judged(job, now)])
  {
    cs, w' := Then(w, cs0, w0, t, Continue, now);
  }

  lemma {:induction false} SoloQueueFailed(w: World, cs0: seq<Command>, w0: World, t: Thread, id: Id,
                                           runAt: Option<int>, now: int)
    returns (cs: seq<Command>, w': World)
    requires Solo(w, cs0, w0, t) && PcOf(w0, t) == FailQueueing(id, runAt) && w0.clock <= now
    ensures Solo(w, cs, w', t) && PcOf(w', t) == Idle && w'.clock == now
    ensures w'.done == w0.done && w'.taken == w0.taken
    ensures w'.store == AfterQueueing(w0.store, id, runAt, now)
  {
    cs, w' := Then(w, cs0, w0, t, Continue, now);
  }

  lemma {:induction false} SoloLog(w: World, t: Thread, id: Id, job: Job, error: string, tLog: int, tMove: int)
    returns (cs: seq<Command>, w': World)
    requires PcOf(w, t) == Holding(id) && SeenBefore(w) && w.clock <= tLog <= tMove
    requires job == Logged(Record(w.store.jobs, id), error, tLog)
    ensures Solo(w, cs, w', t) && PcOf(w', t) == FailStatus(id, job) && w'.clock == tMove
    ensures w'.done == w.done && w'.taken == w.taken
    ensures w'.store == AfterLog(w.store, id, job)
  {
    cs, w' := SoloRead(w, t, id, error, tLog);
    cs, w' := SoloUnlist(w, cs, w', t, id, Record(w.store.jobs, id), error, tLog);
    cs, w' := SoloWriteLog(w, cs, w', t, id, job, tMove);
    var was := Record(w.store.jobs, id);
    assert was.(attempts := job.attempts, attemptLog := job.attemptLog, lastError := job.lastError) == job;
  }

  lemma {:induction false} SoloRead(w: World, t: Thread, id: Id, error: string, now: int)
    returns (cs: seq<Command>, w': World)
    requires PcOf(w, t) == Holding(id) && SeenBefore(w) && w.clock <= now
    ensures Solo(w, cs, w', t) && PcOf(w', t) == Failing(id, Record(w.store.jobs, id), error) && w'.clock == now
    ensures w'.store == w.store && w'.done == w.done && w'.taken == w.taken
  {
    cs, w' := Then(w, [], w, t, Fail(error), now);
  }

  lemma {:induction false} SoloUnlist(w: World, cs0: seq<Command>, w0: World, t: Thread, id: Id,
                                      record: Job, error: string, now: int)
    returns (cs: seq<Command>, w': World)
    requires Solo(w, cs0, w0, t) && PcOf(w0, t) == Failing(id, record, error) && w0.clock <= now
    ensures Solo(w, cs, w', t) && PcOf(w', t) == FailLogging(id, Logged(record, error, now)) && w'.clock == now
    ensures w'.store == w0.store.(active := w0.store.active - {id})
    ensures w'.done == w0.done && w'.taken == w0.taken
  {
    cs, w' := Then(w, cs0, w0, t, Continue, now);
  }

  lemma {:induction false} SoloWriteLog(w: World, cs0: seq<Command>, w0: World, t: Thread, id: Id, job: Job, now: int)
    returns (cs: seq<Command>, w': World)
    requires Solo(w, cs0, w0, t) && PcOf(w0, t) == FailLogging(id, job) && w0.clock <= now
    ensures Solo(w, cs, w', t) && PcOf(w', t) == FailStatus(id, job) && w'.clock == now
    ensures w'.done == w0.done && w'.taken == w0.taken
    ensures w'.store == w0.store.(jobs := w0.store.jobs[id := Record(w0.store.jobs, id).(
              attempts := job.attempts, attemptLog := job.attemptLog, lastError := job.lastError)])
  {
    cs, w' := Then(w, cs0, w0, t, Continue, now);
  }

  lemma {:induction false} SoloRetry(w: World, t: Thread, id: Id, now: int) returns (cs: seq<Command>, w': World)
    requires PcOf(w, t) == Idle && SeenBefore(w) && w.clock <= now
    ensures Solo(w, cs, w', t) && PcOf(w', t) == Idle && w'.clock == now && w'.done == w.done
    ensures w'.taken == if id in w.store.dlq then w.taken[id := []] else w.taken
    ensures w'.store == Retried(w.store, id).0
  {
    cs, w' := Then(w, [], w, t, BeginRetry(id), now);
    if id in w.store.dlq {
      cs, w' := SoloRemoveRetried(w, cs, w', t, id, now);
      cs, w' := SoloRequeue(w, cs, w', t, id, now);
    }
  }

  lemma {:induction false} SoloRequeue(w: World, cs0: seq<Command>, w0: World, t: Thread, id: Id, now: int)
    returns (cs: seq<Command>, w': World)
    requires Solo(w, cs0, w0, t) && PcOf(w0, t) == RetryQueueing(id) && w0.clock <= now
    ensures Solo(w, cs, w', t) && PcOf(w', t) == Idle && w'.clock == now
    ensures w'.done == w0.done && w'.taken == w0.taken
    ensures w'.store == w0.store.(waiting := w0.store.waiting[id := 0])
  {
    cs, w' := Then(w, cs0, w0, t, Continue, now);
  }

  lemma {:induction false} SoloRemoveRetried(w: World, cs0: seq<Command>, w0: World, t: Thread, id: Id, now: int)
    returns (cs: seq<Command>, w': World)
    requires Solo(w, cs0, w0, t) && PcOf(w0, t) == RetryRemoving(id) && w0.clock <= now
    ensures Solo(w, cs, w', t) && PcOf(w', t) == RetryQueueing(id) && w'.clock == now
    ensures w'.done == w0.done && w'.taken == w0.taken[id := []]
    ensures w'.store == w0.store.(dlq := w0.store.dlq - {id},
      jobs := w0.store.jobs[id := Record(w0.store.jobs, id).(status := Waiting, attempts := 0)])
  {
    cs, w' := Then(w, cs0, w0, t, Continue, now);
    cs, w' := SoloResetRetried(w, cs, w', t, id, now);
  }

  lemma {:induction false} SoloResetRetried(w: World, cs0: seq<Command>, w0: World, t: Thread, id: Id, now: int)
    returns (cs: seq<Command>, w': World)
    requires Solo(w, cs0, w0, t) && PcOf(w0, t) == RetryRecord(id) && w0.clock <= now
    ensures Solo(w, cs, w', t) && PcOf(w', t) == RetryQueueing(id) && w'.clock == now
    ensures w'.done == w0.done && w'.taken == w0.taken[id := []]
    ensures w'.store == w0.store.(
      jobs := w0.store.jobs[id := Record(w0.store.jobs, id).(status := Waiting, attempts := 0)])
  {
    cs, w' := Then(w, cs0, w0, t, Continue, now);
  }

  lemma {:induction false} SoloAdd(w: World, t: Thread, id: Id, job: Job, now: int) returns (cs: seq<Command>, w': World)
    requires PcOf(w, t) == Idle && SeenBefore(w) && w.clock <= now
    requires id !in w.store.jobs && IsNew(job, now)
    ensures Solo(w, cs, w', t) && PcOf(w', t) == Idle && w'.clock == now
    ensures w'.done == w.done && w'.taken == w.taken[id := []]
    ensures w'.store == Added(w.store, id, job)
  {
    cs, w' := Then(w, [], w, t, BeginAdd(id, job), now);
    cs, w' := SoloQueueAdded(w, cs, w', t, id, job, now);
  }

  lemma {:induction false} SoloQueueAdded(w: World, cs0: seq<Command>, w0: World, t: Thread, id: Id, job: Job, now: int)
    returns (cs: seq<Command>, w': World)
    requires Solo(w, cs0, w0, t) && PcOf(w0, t) == Adding(id, job) && w0.clock <= now
    ensures Solo(w, cs, w', t) && PcOf(w', t) == Idle && w'.clock == now
    ensures w'.done == w0.done && w'.taken == w0.taken
    ensures w'.store == if job.runAt > job.createdAt then w0.store.(delayed := w0.store.delayed[id := job.runAt])
                        else w0.store.(waiting := w0.store.waiting[id := -job.priority])
  {
    cs, w' := Then(w, cs0, w0, t, Continue, now);
  }

  /** One round of the promotion pipeline: ZREM and ZADD of the first due job. */
  lemma {:induction false} SoloPromoteOne(w: World, cs0: seq<Command>, w0: World, t: Thread, now: int)
    returns (cs: seq<Command>, w': World)
    requires Solo(w, cs0, w0, t) && PcOf(w0, t).Promoting? && !PcOf(w0, t).removed && PcOf(w0, t).due != []
    requires w0.clock <= now
    ensures Solo(w, cs, w', t) && w'.clock == now && w'.done == w0.done && w'.taken == w0.taken
    ensures var pc := PcOf(w0, t);
            && w'.store == w0.store.(delayed := w0.store.delayed - {pc.due[0]},
                                     waiting := w0.store.waiting[pc.due[0] := 0])
            && PcOf(w', t) == if |pc.due| == 1 then Popping else Promoting(pc.due[1..], pc.asOf, false)
  {
    cs, w' := Then(w, cs0, w0, t, Continue, now);
    cs, w' := Then(w, cs, w', t, Continue, now);
  }

  function Elements(due: seq<Id>): set<Id> { set id | id in due }

  function WithPromoted(s: Store, ids: set<Id>): Store {
    s.(delayed := s.delayed - ids, waiting := ZeroScored(s.waiting, ids))
  }

  lemma {:induction false} PromotedCons(s: Store, due: seq<Id>)
    requires due != []
    ensures var s1 := s.(delayed := s.delayed - {due[0]}, waiting := s.waiting[due[0] := 0]);
            WithPromoted(s1, Elements(due[1..])) == WithPromoted(s, Elements(due))
  {
    assert Elements(due) == {due[0]} + Elements(due[1..]);
    assert s.delayed - {due[0]} - Elements(due[1..]) == s.delayed - Elements(due);
    assert ZeroScored(s.waiting[due[0] := 0], Elements(due[1..])) == ZeroScored(s.waiting, Elements(due));
  }

  lemma {:induction false} SoloPromoteAll(w: World, cs0: seq<Command>, w0: World, t: Thread, due: seq<Id>,
                                          asOf: int, now: int)
    returns (cs: seq<Command>, w': World)
    requires Solo(w, cs0, w0, t) && due != [] && PcOf(w0, t) == Promoting(due, asOf, false) && w0.clock <= now
    ensures Solo(w, cs, w', t) && PcOf(w', t) == Popping && w'.clock == now
    ensures w'.done == w0.done && w'.taken == w0.taken
    ensures w'.store == WithPromoted(w0.store, Elements(due))
    decreases |due|
  {
    cs, w' := SoloPromoteOne(w, cs0, w0, t, now);
    PromotedCons(w0.store, due);
    if |due| > 1 {
      cs, w' := SoloPromoteAll(w, cs, w', t, due[1..], asOf, now);
    } else {
      NonePromoted(w'.store, due[1..]);
    }
  }

  lemma {:induction false} NonePromoted(s: Store, due: seq<Id>)
    requires due == []
    ensures WithPromoted(s, Elements(due)) == s
  {
    assert s.delayed - Elements(due) == s.delayed;
    assert ZeroScored(s.waiting, Elements(due)) == s.waiting;
  }

  /** `due` lists the members ZRANGEBYSCORE returns. */
  predicate ListsDue(s: Store, due: seq<Id>, now: int) {
    && (forall i | 0 <= i < |due| :: due[i] in Due(s.delayed, now))
    && (forall id | id in Due(s.delayed, now) :: id in due)
    && (forall i, j | 0 <= i < j < |due| :: due[i] != due[j])
  }

  lemma {:induction false} SoloPromote(w: World, t: Thread, due: seq<Id>, now: int) returns (cs: seq<Command>, w': World)
    requires PcOf(w, t) == Idle && SeenBefore(w) && w.clock <= now && ListsDue(w.store, due, now)
    ensures Solo(w, cs, w', t) && PcOf(w', t) == Popping && w'.clock == now
    ensures w'.done == w.done && w'.taken == w.taken
    ensures w'.store == Promoted(w.store, now)
  {
    assert Elements(due) == Due(w.store.delayed, now);
    cs, w' := Then(w, [], w, t, BeginDequeue(due), now);
    if due == [] {
      NonePromoted(w.store, due);
    } else {
      cs, w' := SoloPromoteAll(w, cs, w', t, due, now, now);
    }
  }

  lemma {:induction false} SoloPop(w: World, cs0: seq<Command>, w0: World, t: Thread, now: int)
    returns (cs: seq<Command>, w': World)
    requires Solo(w, cs0, w0, t) && PcOf(w0, t) == Popping && w0.clock <= now
    ensures Solo(w, cs, w', t) && w'.clock == now && w'.done == w0.done
    ensures var (s, popped) := Popped(w0.store, now);
            && w'.store == s
            && PcOf(w', t) == (if popped.Some? then Fetching(popped.value) else Idle)
            && w'.taken == if popped.Some? then w0.taken[popped.value := Times(w0, popped.value) + [now]] else w0.taken
  {
    cs, w' := Then(w, cs0, w0, t, Continue, now);
  }

  lemma {:induction false} SoloFetch(w: World, cs0: seq<Command>, w0: World, t: Thread, now: int)
    returns (cs: seq<Command>, w': World)
    requires Solo(w, cs0, w0, t) && PcOf(w0, t).Fetching? && w0.clock <= now
    ensures Solo(w, cs, w', t) && PcOf(w', t) == Holding(PcOf(w0, t).id) && w'.clock == now
    ensures w'.store == w0.store && w'.done == w0.done && w'.taken == w0.taken
  {
    cs, w' := Then(w, cs0, w0, t, Continue, now);
  }

  lemma {:induction false} SoloDequeue(w: World, t: Thread, due: seq<Id>, tPromote: int, tStart: int)
    returns (cs: seq<Command>, w': World)
    requires PcOf(w, t) == Idle && SeenBefore(w) && w.clock <= tPromote <= tStart && ListsDue(w.store, due, tPromote)
    ensures Solo(w, cs, w', t) && w'.clock == tStart && w'.done == w.done
    ensures var (s, popped) := Dequeued(w.store, tPromote, tStart);
            && w'.store == s
            && PcOf(w', t) == (if popped.Some? then Holding(popped.value) else Idle)
            && w'.taken == if popped.Some? then w.taken[popped.value := Times(w, popped.value) + [tStart]] else w.taken
  {
    cs, w' := SoloPromote(w, t, due, tPromote);
    cs, w' := SoloPop(w, cs, w', t, tStart);
    if PcOf(w', t).Fetching? {
      cs, w' := SoloFetch(w, cs, w', t, tStart);
    }
  }
}
