/** The queue object. Its fields stand for the Redis keys the original builds in its
    constructor; each statement below is one Redis command, in the original's order.
    Clock readings and the generated uuid are parameters. */
module QueueClass {
  import opened Optional
  import opened Ordering
  import opened QueueModel

  class Queue {
    var waiting: ZSet
    var active: ZSet
    var delayed: ZSet
    var dlq: ZSet
    var completed: seq<Id>
    var jobs: map<Id, Job>
    const defaults: Defaults

    constructor (defaultPriority: Option<int>, defaultMaxAttempts: Option<int>)
      ensures State() == EMPTY_STORE && defaults == DefaultsOf(defaultPriority, defaultMaxAttempts)
    {
      defaults := DefaultsOf(defaultPriority, defaultMaxAttempts);
      waiting, active, delayed, dlq := map[], map[], map[], map[];
      completed, jobs := [], map[];
    }

    function State(): Store
      reads this
    {
      Store(waiting, active, delayed, dlq, completed, jobs)
    }

    method Add(id: Id, kind: string, data: string, options: AddOptions, now: int) returns (jobId: Id)
      modifies this
      ensures jobId == id
      ensures State() == Added(old(State()), id, NewJob(kind, data, options, defaults, now))
    {
      var runAt := now;
      if options.delay.Some? && options.delay.value != 0 {
        runAt := now + options.delay.value;
      }
      var job := Job(kind, data,
                     GetOr(options.priority, defaults.priority),
                     GetOr(options.maxAttempts, defaults.maxAttempts),
                     0,
                     GetOr(options.timeout, DEFAULT_TIMEOUT),
                     now, runAt, Waiting, None, None, None, []);
      jobs := jobs[id := job];
      if runAt > now {
        delayed := delayed[id := runAt];
      } else {
        waiting := waiting[id := -job.priority];
      }
      jobId := id;
    }

    /** ZRANGEBYSCORE -inf now, in the order Redis lists the members. */
    method DueIds(now: int) returns (ids: seq<Id>)
      ensures forall id :: id in ids <==> id in delayed && delayed[id] <= now
      ensures Ordered(delayed, ids)
    {
      ids := [];
      var rest: ZSet := map id | id in delayed && delayed[id] <= now :: delayed[id];
      while rest.Keys != {}
        invariant forall id :: id in delayed && delayed[id] <= now <==> (id in ids || id in rest)
        invariant ListedBefore(delayed, ids, rest)
        decreases |rest|
      {
        var next := First(rest);
        ListNext(delayed, ids, rest);
        ids, rest := ids + [next], rest - {next};
      }
    }

    method PromoteDelayed(now: int)
      modifies this
      ensures State() == Promoted(old(State()), now)
      ensures forall id :: id in delayed <==> id in old(delayed) && old(delayed)[id] > now
      ensures forall id :: id in waiting <==> id in old(waiting) || (id in old(delayed) && old(delayed)[id] <= now)
      ensures forall id | id in waiting ::
                waiting[id] == if id in old(delayed) && old(delayed)[id] <= now then 0 else old(waiting)[id]
    {
      var due := DueIds(now);
      ghost var moved: set<Id> := {};
      for i := 0 to |due|
        invariant active == old(active) && dlq == old(dlq) && completed == old(completed) && jobs == old(jobs)
        invariant forall id :: id in moved <==> id in due[..i]
        invariant delayed == old(delayed) - moved
        invariant waiting == ZeroScored(old(waiting), moved)
      {
        delayed := delayed - {due[i]};
        waiting := waiting[due[i] := 0];
        ZeroScoredStep(old(waiting), moved, due[i]);
        moved := moved + {due[i]};
      }
      assert moved == Due(old(delayed), now);
    }

    method Dequeue(tPromote: int, tStart: int) returns (job: Option<(Id, Job)>)
      modifies this
      ensures (State(), if job.Some? then Some(job.value.0) else None)
           == Dequeued(old(State()), tPromote, tStart)
      ensures forall id | id in delayed :: delayed[id] > tPromote
      ensures job.Some? ==> job.value.0 !in waiting && active == old(active)[job.value.0 := tStart]
      ensures job.Some? ==> job.value.1 == Record(old(jobs), job.value.0)
    {
      PromoteDelayed(tPromote);
      if waiting.Keys == {} {
        return None;
      }
      var id := First(waiting);
      waiting := waiting - {id};
      active := active[id := tStart];
      job := Some((id, Record(jobs, id)));
    }

    method Complete(id: Id, result: string, now: int)
      modifies this
      ensures State() == Finished(old(State()), id, result, now)
      ensures active == old(active) - {id} && jobs.Keys == old(jobs).Keys + {id}
      ensures jobs[id] == Record(old(jobs), id).(status := Completed, result := Some(result), completedAt := Some(now))
      ensures |completed| == (if |old(completed)| < 1000 then |old(completed)| + 1 else 1000)
      ensures completed <= [id] + old(completed)
    {
      active := active - {id};
      jobs := jobs[id := Record(jobs, id).(
        status := Completed, result := Some(result), completedAt := Some(now))];
      completed := [id] + completed;
      completed := Prefix(completed, HISTORY);
    }

    method Fail(id: Id, error: string, tLog: int, tMove: int)
      modifies this
      ensures State() == FailedOnce(old(State()), id, error, tLog, tMove)
    {
      var jobData := Record(jobs, id);
      var attempts := jobData.attempts + 1;
      var attemptLog := jobData.attemptLog + [Attempt(attempts, error, tLog)];
      active := active - {id};
      jobs := jobs[id := Record(jobs, id).(
        attempts := attempts, attemptLog := attemptLog, lastError := Some(error))];
      ghost var job := Logged(jobData, error, tLog);
      assert jobs == old(jobs)[id := job];
      if attempts >= jobData.maxAttempts {
        Overwritten(old(jobs), id, job, job.(status := Failed));
        jobs := jobs[id := Record(jobs, id).(status := Failed)];
        dlq := dlq[id := tMove];
      } else {
        var runAt := tMove + Backoff(attempts);
        Overwritten(old(jobs), id, job, job.(status := Waiting, runAt := runAt));
        jobs := jobs[id := Record(jobs, id).(status := Waiting, runAt := runAt)];
        delayed := delayed[id := runAt];
      }
    }

    method RetryDLQ(id: Id) returns (found: bool)
      modifies this
      ensures (State(), found) == Retried(old(State()), id)
    {
      if id !in dlq {
        return false;
      }
      dlq := dlq - {id};
      jobs := jobs[id := Record(jobs, id).(status := Waiting, attempts := 0)];
      waiting := waiting[id := 0];
      found := true;
    }

    method Stats() returns (nWaiting: nat, nActive: nat, nDelayed: nat, nCompleted: nat, nFailed: nat)
      ensures nWaiting == |waiting| && nActive == |active| && nDelayed == |delayed|
      ensures nCompleted == |completed| && nFailed == |dlq|
    {
      nWaiting, nActive, nDelayed := |waiting|, |active|, |delayed|;
      nCompleted, nFailed := |completed|, |dlq|;
    }
  }
}
