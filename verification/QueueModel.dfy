/** The Redis structures of one job queue, and what each queue operation does to
    them when it runs alone. */
module QueueModel {
  import opened Optional
  import opened Ordering

  datatype Status = Waiting | Completed | Failed

  datatype Attempt = Attempt(attempt: nat, error: string, failedAt: int)

  /** The hash kept for each job, as `_deserializeJob` reads it. */
  datatype Job = Job(
    kind: string,
    data: string,
    priority: int,
    maxAttempts: int,
    attempts: nat,
    timeout: int,
    createdAt: int,
    runAt: int,
    status: Status,
    result: Option<string>,
    completedAt: Option<int>,
    lastError: Option<string>,
    attemptLog: seq<Attempt>)

  /** Options of `add`; absent ones take the queue's defaults. */
  datatype AddOptions = AddOptions(
    priority: Option<int>,
    delay: Option<int>,
    maxAttempts: Option<int>,
    timeout: Option<int>)

  /** What a queue object was constructed with. */
  datatype Defaults = Defaults(priority: int, maxAttempts: int)

  /** Options of the constructor; an absent one or 0 falls back. */
  function DefaultsOf(priority: Option<int>, maxAttempts: Option<int>): Defaults {
    Defaults(NonZero(priority, 0), NonZero(maxAttempts, 3))
  }

  function NonZero(o: Option<int>, fallback: int): int {
    if o.Some? && o.value != 0 then o.value else fallback
  }

  datatype Store = Store(
    waiting: ZSet,
    active: ZSet,
    delayed: ZSet,
    dlq: ZSet,
    completed: seq<Id>,
    jobs: map<Id, Job>)

  const EMPTY_STORE := Store(map[], map[], map[], map[], [], map[])
  const HISTORY := 1000
  const DEFAULT_TIMEOUT := 300_000

  /** What reading a hash that does not exist yields: every field at its fallback. */
  const NO_RECORD := Job("", "", 0, 3, 0, 300_000, 0, 0, Waiting, None, None, None, [])

  function Record(jobs: map<Id, Job>, id: Id): Job {
    if id in jobs then jobs[id] else NO_RECORD
  }

  function NewJob(kind: string, data: string, options: AddOptions, defaults: Defaults, now: int): Job {
    Job(kind, data,
        GetOr(options.priority, defaults.priority),
        GetOr(options.maxAttempts, defaults.maxAttempts),
        0,
        GetOr(options.timeout, DEFAULT_TIMEOUT),
        now,
        now + GetOr(options.delay, 0),
        Waiting, None, None, None, [])
  }

  function Pow2(n: nat): (r: nat)
    ensures r >= 1
  {
    if n == 0 then 1 else 2 * Pow2(n - 1)
  }

  function Backoff(attempts: nat): nat { Pow2(attempts) * 1000 }

  /** How many attempts a job gets before the dead-letter queue. */
  function Tries(job: Job): int {
    if job.maxAttempts >= 1 then job.maxAttempts else 1
  }

  /** Between the n-th dequeue of a job and the next lie at least 2^n seconds. */
  ghost predicate Spaced(d: seq<int>) {
    forall n | 1 <= n < |d| :: d[n] >= d[n - 1] + Backoff(n)
  }

  lemma {:induction false} SpacedFromFirst(d: seq<int>, n: nat)
    requires Spaced(d) && n < |d|
    ensures d[n] >= d[0] + 1000 * (Pow2(n + 1) - 2)
  {
    if n > 0 {
      SpacedFromFirst(d, n - 1);
    }
  }

  /** What the spacing of a job's dequeues comes to. */
  ghost predicate BacksOff(d: seq<int>) {
    && (forall n | 1 <= n < |d| :: d[n] >= d[n - 1] + 1000 * Pow2(n))
    && (forall n: nat | n < |d| :: d[n] >= d[0] + 1000 * (Pow2(n + 1) - 2))
  }

  lemma {:induction false} SpacedBacksOff(d: seq<int>)
    requires Spaced(d)
    ensures BacksOff(d)
  {
    forall n: nat | n < |d| ensures d[n] >= d[0] + 1000 * (Pow2(n + 1) - 2) {
      SpacedFromFirst(d, n);
    }
  }

  function Prefix<T>(s: seq<T>, n: nat): seq<T> {
    if |s| <= n then s else s[..n]
  }

  function Due(delayed: ZSet, now: int): set<Id> {
    set id | id in delayed && delayed[id] <= now
  }

  /** Every id of `ids` at score 0, over whatever score it had. */
  function ZeroScored(waiting: ZSet, ids: set<Id>): ZSet {
    map id | id in waiting.Keys + ids :: if id in ids then 0 else waiting[id]
  }

  lemma {:induction false} ZeroScoredStep(waiting: ZSet, ids: set<Id>, id: Id)
    ensures ZeroScored(waiting, ids)[id := 0] == ZeroScored(waiting, ids + {id})
  {
  }

  lemma {:induction false} Overwritten<K, V>(m: map<K, V>, k: K, v: V, v': V)
    ensures m[k := v][k := v'] == m[k := v']
  {
  }

  function Added(s: Store, id: Id, job: Job): Store {
    if job.runAt > job.createdAt then
      s.(jobs := s.jobs[id := job], delayed := s.delayed[id := job.runAt])
    else
      s.(jobs := s.jobs[id := job], waiting := s.waiting[id := -job.priority])
  }

  function Promoted(s: Store, now: int): Store {
    s.(delayed := s.delayed - Due(s.delayed, now),
       waiting := ZeroScored(s.waiting, Due(s.delayed, now)))
  }

  /** The Lua script: ZPOPMIN from waiting, ZADD to active. */
  function Popped(s: Store, now: int): (r: (Store, Option<Id>)) {
    if s.waiting.Keys == {} then (s, None)
    else
      var id := First(s.waiting);
      (s.(waiting := s.waiting - {id}, active := s.active[id := now]), Some(id))
  }

  function Dequeued(s: Store, tPromote: int, tStart: int): (Store, Option<Id>) {
    Popped(Promoted(s, tPromote), tStart)
  }

  /** The score with which a job stands in line for a dequeue at `t`: a due one at 0, a waiting one at
      its own, any other not at all. */
  function Standing(s: Store, id: Id, t: int): Option<int> {
    if id in s.delayed && s.delayed[id] <= t then Some(0)
    else if id in s.waiting then Some(s.waiting[id])
    else None
  }

  /** A dequeue returns a job unless nobody stands in line, and the one it returns comes before all
      others that do, in (score, id). */
  lemma {:induction false} DequeueTakesFirst(s: Store, tPromote: int, tStart: int)
    ensures var popped := Dequeued(s, tPromote, tStart).1;
            && (popped.None? <==> forall id :: Standing(s, id, tPromote).None?)
            && (popped.Some? ==>
                  var first := Standing(s, popped.value, tPromote);
                  && first.Some?
                  && forall id | id != popped.value && Standing(s, id, tPromote).Some? ::
                       var score := Standing(s, id, tPromote).value;
                       first.value < score || (first.value == score && Below(popped.value, id)))
  {
    var z := Promoted(s, tPromote).waiting;
    forall id ensures Standing(s, id, tPromote) == if id in z then Some(z[id]) else None {
    }
    if z.Keys == {} {
      assert forall id :: id !in z;
    } else {
      assert IsFirst(z, First(z)) && First(z) in z;
    }
  }

  /** It leaves nothing due in delayed: what stood in line is the job returned or waits with that
      score, what did not is where it was, and nothing else has changed. */
  lemma {:induction false} DequeueLeavesNothingDue(s: Store, tPromote: int, tStart: int)
    ensures var (s', popped) := Dequeued(s, tPromote, tStart);
            && (forall id :: id in s'.delayed <==> id in s.delayed && s.delayed[id] > tPromote)
            && (forall id | id in s'.delayed :: s'.delayed[id] == s.delayed[id])
            && (forall id :: id in s'.waiting <==> Standing(s, id, tPromote).Some? && popped != Some(id))
            && (forall id | id in s'.waiting :: Some(s'.waiting[id]) == Standing(s, id, tPromote))
            && s'.active == (if popped.Some? then s.active[popped.value := tStart] else s.active)
            && s'.dlq == s.dlq && s'.completed == s.completed && s'.jobs == s.jobs
  {
    var z := Promoted(s, tPromote).waiting;
    forall id ensures Standing(s, id, tPromote) == if id in z then Some(z[id]) else None {
    }
  }

  /** The delays between attempts: 2 s, 4 s, 8 s, ... */
  lemma {:induction false} BackoffDoubles(n: nat)
    ensures Backoff(1) == 2000 && Backoff(n + 1) == 2 * Backoff(n)
  {
    assert Pow2(1) == 2 * Pow2(0);
  }

  function Finished(s: Store, id: Id, result: string, now: int): Store {
    s.(active := s.active - {id},
       jobs := s.jobs[id := Record(s.jobs, id).(
         status := Completed, result := Some(result), completedAt := Some(now))],
       completed := Prefix([id] + s.completed, HISTORY))
  }

  function Logged(job: Job, error: string, tLog: int): Job {
    job.(attempts := job.attempts + 1,
         attemptLog := job.attemptLog + [Attempt(job.attempts + 1, error, tLog)],
         lastError := Some(error))
  }

  function FailedOnce(s: Store, id: Id, error: string, tLog: int, tMove: int): Store {
    var job := Logged(Record(s.jobs, id), error, tLog);
    if job.attempts >= job.maxAttempts then
      s.(active := s.active - {id},
         jobs := s.jobs[id := job.(status := Failed)],
         dlq := s.dlq[id := tMove])
    else
      var runAt := tMove + Backoff(job.attempts);
      s.(active := s.active - {id},
         jobs := s.jobs[id := job.(status := Waiting, runAt := runAt)],
         delayed := s.delayed[id := runAt])
  }

  /** Where a failed job goes, when, and what its record then says. */
  lemma {:induction false} FailureMoves(s: Store, id: Id, error: string, tLog: int, tMove: int)
    ensures var was, n := Record(s.jobs, id), Record(s.jobs, id).attempts + 1;
            var s' := FailedOnce(s, id, error, tLog, tMove);
            var job := Record(s'.jobs, id);
            && id !in s'.active && job.attempts == n && job.lastError == Some(error)
            && job.attemptLog == was.attemptLog + [Attempt(n, error, tLog)]
            && (if n >= was.maxAttempts then
                  job.status == Failed && s'.dlq == s.dlq[id := tMove] && s'.delayed == s.delayed
                else
                  && job.status == Waiting && job.runAt == tMove + 1000 * Pow2(n)
                  && s'.delayed == s.delayed[id := tMove + 1000 * Pow2(n)] && s'.dlq == s.dlq)
            && s'.waiting == s.waiting && s'.completed == s.completed
  {
    BackoffDoubles(0);
  }

  /** A job whose record is gone is retried like any other, as one of three attempts. */
  lemma {:induction false} FailureWithoutRecord(s: Store, id: Id, error: string, tLog: int, tMove: int)
    requires id !in s.jobs
    ensures var s' := FailedOnce(s, id, error, tLog, tMove);
            && s'.delayed == s.delayed[id := tMove + 2000] && s'.dlq == s.dlq && id in s'.jobs
            && s'.jobs[id].attempts == 1 && s'.jobs[id].maxAttempts == 3 && s'.jobs[id].priority == 0
            && s'.jobs[id].timeout == 300_000
  {
    assert Pow2(1) == 2 * Pow2(0);
  }

  /** `retryDLQ`; it throws, changing nothing, when the id is not in the dead-letter queue. */
  function Retried(s: Store, id: Id): (Store, bool) {
    if id !in s.dlq then (s, false)
    else
      (s.(dlq := s.dlq - {id},
          jobs := s.jobs[id := Record(s.jobs, id).(status := Waiting, attempts := 0)],
          waiting := s.waiting[id := 0]), true)
  }
}
