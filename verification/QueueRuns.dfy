/** Whole runs of queue operations, each running alone: where a job can be, how its
    record agrees with its place, how far apart its attempts are, and how much work
    a queue can still do. */
module QueueRuns {
  import opened Optional
  import opened Ordering
  import opened QueueModel

  datatype Event =
    | AddEvent(id: Id, kind: string, data: string, options: AddOptions, defaults: Defaults, now: int)
    | DequeueEvent(tPromote: int, tStart: int)
    | CompleteEvent(id: Id, result: string, now: int)
    | FailEvent(id: Id, error: string, tLog: int, tMove: int)
    | RetryEvent(id: Id)

  /** The store with the history of the run: the latest clock reading, every completion
      (newest first), and for each job the times of its dequeues since it was added or
      last retried from the dead-letter queue. */
  datatype Run = Run(store: Store, clock: int, finished: seq<Id>, dequeues: map<Id, seq<int>>)

  const START := Run(EMPTY_STORE, 0, [], map[])

  /** Ids are fresh, the clock does not go back, and only a job a worker holds is settled. */
  predicate Legal(r: Run, e: Event) {
    match e
    case AddEvent(id, _, _, _, _, now) => id !in r.store.jobs && r.clock <= now
    case DequeueEvent(tPromote, tStart) => r.clock <= tPromote <= tStart
    case CompleteEvent(id, _, now) => id in r.store.active && r.clock <= now
    case FailEvent(id, _, tLog, tMove) => id in r.store.active && r.clock <= tLog <= tMove
    case RetryEvent(_) => true
  }

  function Next(r: Run, e: Event): Run {
    match e
    case AddEvent(id, kind, data, options, defaults, now) =>
      Run(Added(r.store, id, NewJob(kind, data, options, defaults, now)), now, r.finished, r.dequeues[id := []])
    case DequeueEvent(tPromote, tStart) =>
      var (s, popped) := Dequeued(r.store, tPromote, tStart);
      var log := if popped.Some? then
                   r.dequeues[popped.value := Times(r, popped.value) + [tStart]]
                 else r.dequeues;
      Run(s, tStart, r.finished, log)
    case CompleteEvent(id, result, now) =>
      Run(Finished(r.store, id, result, now), now, [id] + r.finished, r.dequeues)
    case FailEvent(id, error, tLog, tMove) =>
      Run(FailedOnce(r.store, id, error, tLog, tMove), tMove, r.finished, r.dequeues)
    case RetryEvent(id) =>
      var (s, found) := Retried(r.store, id);
      Run(s, r.clock, r.finished, if found then r.dequeues[id := []] else r.dequeues)
  }

  function Times(r: Run, id: Id): seq<int> {
    if id in r.dequeues then r.dequeues[id] else []
  }

  predicate LegalTrace(r: Run, events: seq<Event>)
    decreases |events|
  {
    events == [] || (Legal(r, events[0]) && LegalTrace(Next(r, events[0]), events[1..]))
  }

  function Exec(r: Run, events: seq<Event>): Run
    decreases |events|
  {
    if events == [] then r else Exec(Next(r, events[0]), events[1..])
  }

  // ---------------------------------------------------------------- invariant

  function One(b: bool): nat { if b then 1 else 0 }

  /** In how many places a job is. */
  function Count(r: Run, id: Id): nat {
    One(id in r.store.waiting) + One(id in r.store.active) + One(id in r.store.delayed)
    + One(id in r.store.dlq) + multiset(r.finished)[id]
  }

  ghost predicate StatusOk(r: Run, id: Id)
    requires id in r.store.jobs
  {
    var job := r.store.jobs[id];
    && (job.status == Failed <==> id in r.store.dlq)
    && (job.status == Completed <==> id in r.finished)
    && (id in r.store.dlq <==> job.attempts >= Tries(job))
    && job.attempts <= Tries(job)
    && (id in r.store.delayed ==> r.store.delayed[id] == job.runAt)
  }

  /** Attempts since the last retry are logged, numbered from 1. */
  ghost predicate LogOk(job: Job) {
    && job.attempts <= |job.attemptLog|
    && (forall i | |job.attemptLog| - job.attempts <= i < |job.attemptLog| ::
          job.attemptLog[i].attempt == i + 1 - (|job.attemptLog| - job.attempts))
  }

  /** Added without a delay and never failed since. */
  predicate Direct(job: Job) {
    job.runAt <= job.createdAt && job.attemptLog == []
  }

  /** A waiting job keeps its priority only if it has never been delayed or failed. */
  ghost predicate ScoreOk(r: Run, id: Id)
    requires id in r.store.jobs
  {
    var job := r.store.jobs[id];
    && (id in r.store.waiting ==> r.store.waiting[id] == if Direct(job) then -job.priority else 0)
    && (id in r.store.delayed ==> !Direct(job))
  }

  ghost predicate TimesOk(r: Run, id: Id)
    requires id in r.store.jobs
  {
    var job, d := r.store.jobs[id], Times(r, id);
    && Spaced(d)
    && |d| == job.attempts + One(id in r.store.active || id in r.finished)
    && (d != [] ==> d[|d| - 1] <= r.clock)
    && (d != [] && (id in r.store.waiting || id in r.store.delayed) ==>
          job.runAt >= d[|d| - 1] + Backoff(|d|))
    && (id in r.store.waiting ==> job.runAt <= r.clock)
    && (id in r.store.active ==> job.runAt <= d[|d| - 1])
    && (id in r.store.dlq ==> job.runAt <= r.clock)
  }

  ghost predicate JobOk(r: Run, id: Id) {
    && Count(r, id) == One(id in r.store.jobs)
    && (id in r.dequeues ==> id in r.store.jobs)
    && (id in r.store.jobs ==>
          StatusOk(r, id) && LogOk(r.store.jobs[id]) && ScoreOk(r, id) && TimesOk(r, id))
  }

  ghost predicate Inv(r: Run) {
    && (forall id :: JobOk(r, id))
    && r.store.completed == Prefix(r.finished, HISTORY)
  }

  /** Nothing about the job has changed but the clock. */
  ghost predicate Untouched(r: Run, r': Run, id: Id) {
    var s, s' := r.store, r'.store;
    && (id in s'.jobs <==> id in s.jobs) && (id in s.jobs ==> s'.jobs[id] == s.jobs[id])
    && (id in s'.waiting <==> id in s.waiting) && (id in s.waiting ==> s'.waiting[id] == s.waiting[id])
    && (id in s'.delayed <==> id in s.delayed) && (id in s.delayed ==> s'.delayed[id] == s.delayed[id])
    && (id in s'.active <==> id in s.active) && (id in s'.dlq <==> id in s.dlq)
    && multiset(r'.finished)[id] == multiset(r.finished)[id] && (id in r'.finished <==> id in r.finished)
    && (id in r'.dequeues <==> id in r.dequeues) && Times(r', id) == Times(r, id)
    && r.clock <= r'.clock
  }

  lemma {:induction false} UntouchedKeeps(r: Run, r': Run, id: Id)
    requires JobOk(r, id) && Untouched(r, r', id)
    ensures JobOk(r', id)
  {
  }

  lemma {:induction false} AddKeeps(r: Run, e: Event, id: Id)
    requires e.AddEvent? && Legal(r, e) && JobOk(r, id) && JobOk(r, e.id)
    ensures JobOk(Next(r, e), id)
  {
    if id != e.id {
      UntouchedKeeps(r, Next(r, e), id);
    }
  }

  lemma {:induction false} CompleteKeeps(r: Run, e: Event, id: Id)
    requires e.CompleteEvent? && Legal(r, e) && JobOk(r, id)
    ensures JobOk(Next(r, e), id)
  {
    assert multiset([e.id] + r.finished) == multiset{e.id} + multiset(r.finished);
    if id != e.id {
      UntouchedKeeps(r, Next(r, e), id);
    }
  }

  lemma {:induction false} RetryKeeps(r: Run, e: Event, id: Id)
    requires e.RetryEvent? && Legal(r, e) && JobOk(r, id)
    ensures JobOk(Next(r, e), id)
  {
    if id != e.id || id !in r.store.dlq {
      UntouchedKeeps(r, Next(r, e), id);
    }
  }

  // The job that `fail` settles was active, so it is in no other place.

  lemma {:induction false} FailMoves(r: Run, e: Event)
    requires e.FailEvent? && Legal(r, e) && JobOk(r, e.id)
    ensures var s, id := Next(r, e).store, e.id;
            && id in s.jobs && id !in s.waiting && id !in s.active && id !in r.finished
            && (id in s.dlq <==> s.jobs[id].attempts >= s.jobs[id].maxAttempts)
            && (id in s.delayed <==> id !in s.dlq)
  {
  }

  lemma {:induction false} FailRecords(r: Run, e: Event)
    requires e.FailEvent? && Legal(r, e) && JobOk(r, e.id)
    ensures var job, job' := r.store.jobs[e.id], Next(r, e).store.jobs[e.id];
            && job'.attempts == job.attempts + 1 && job'.maxAttempts == job.maxAttempts
            && job'.attemptLog == job.attemptLog + [Attempt(job.attempts + 1, e.error, e.tLog)]
            && (if job'.attempts >= job.maxAttempts then job'.status == Failed && job'.runAt == job.runAt
                else job'.status == Waiting && job'.runAt == e.tMove + Backoff(job'.attempts)
                     && Next(r, e).store.delayed[e.id] == job'.runAt)
  {
  }

  lemma {:induction false} FailKeepsTimes(r: Run, e: Event)
    requires e.FailEvent? && Legal(r, e) && JobOk(r, e.id) && e.id in Next(r, e).store.jobs
    ensures TimesOk(Next(r, e), e.id)
  {
    FailMoves(r, e);
    FailRecords(r, e);
  }

  lemma {:induction false} FailKeeps(r: Run, e: Event, id: Id)
    requires e.FailEvent? && Legal(r, e) && JobOk(r, id)
    ensures JobOk(Next(r, e), id)
  {
    if id != e.id {
      UntouchedKeeps(r, Next(r, e), id);
    } else {
      FailMoves(r, e);
      FailRecords(r, e);
      FailKeepsTimes(r, e);
    }
  }

  /** A dequeue is a promotion followed by the Lua script. */
  function AfterPromotion(r: Run, e: Event): Run
    requires e.DequeueEvent?
  {
    Run(Promoted(r.store, e.tPromote), e.tPromote, r.finished, r.dequeues)
  }

  lemma {:induction false} PromotionKeeps(r: Run, e: Event, id: Id)
    requires e.DequeueEvent? && Legal(r, e) && JobOk(r, id)
    ensures JobOk(AfterPromotion(r, e), id)
  {
    if id !in Due(r.store.delayed, e.tPromote) {
      UntouchedKeeps(r, AfterPromotion(r, e), id);
    }
  }

  lemma {:induction false} PopKeeps(r: Run, e: Event, id: Id)
    requires e.DequeueEvent? && Legal(r, e) && JobOk(AfterPromotion(r, e), id)
    ensures JobOk(Next(r, e), id)
  {
    var p := AfterPromotion(r, e);
    if p.store.waiting.Keys == {} || id != First(p.store.waiting) {
      UntouchedKeeps(p, Next(r, e), id);
    } else {
      assert Times(Next(r, e), id) == Times(p, id) + [e.tStart];
    }
  }

  lemma {:induction false} DequeueKeeps(r: Run, e: Event, id: Id)
    requires e.DequeueEvent? && Legal(r, e) && JobOk(r, id)
    ensures JobOk(Next(r, e), id)
  {
    PromotionKeeps(r, e, id);
    PopKeeps(r, e, id);
  }

  lemma {:induction false} NextKeeps(r: Run, e: Event)
    requires Inv(r) && Legal(r, e)
    ensures Inv(Next(r, e))
  {
    forall id ensures JobOk(Next(r, e), id) {
      assert JobOk(r, id);
      match e
      case AddEvent(added, _, _, _, _, _) => assert JobOk(r, added); AddKeeps(r, e, id);
      case DequeueEvent(_, _) => DequeueKeeps(r, e, id);
      case CompleteEvent(_, _, _) => CompleteKeeps(r, e, id);
      case FailEvent(_, _, _, _) => FailKeeps(r, e, id);
      case RetryEvent(_) => RetryKeeps(r, e, id);
    }
  }

  lemma {:induction false} TraceKeeps(r: Run, events: seq<Event>)
    requires Inv(r) && LegalTrace(r, events)
    ensures Inv(Exec(r, events))
    decreases |events|
  {
    if events != [] {
      NextKeeps(r, events[0]);
      TraceKeeps(Next(r, events[0]), events[1..]);
    }
  }

  // ---------------------------------------------------------------- over every run

  /** In every run, a job is in exactly one place from its add on, its status tells whether
      that is the dead-letter queue or the finished jobs, and its delayed score is its runAt. */
  lemma {:induction false} ExactlyOnePlace(events: seq<Event>, id: Id)
    requires LegalTrace(START, events)
    ensures var r := Exec(START, events);
            && Count(r, id) == One(id in r.store.jobs)
            && (id in r.store.jobs ==>
                  var job := r.store.jobs[id];
                  && (job.status == Failed <==> id in r.store.dlq)
                  && (job.status == Completed <==> id in r.finished)
                  && (id in r.store.delayed ==> r.store.delayed[id] == job.runAt))
  {
    assert Inv(START);
    TraceKeeps(START, events);
    assert JobOk(Exec(START, events), id);
  }

  /** Nothing is created or lost: the four sets and all completions together are the adds. */
  lemma {:induction false} Conservation(events: seq<Event>)
    requires LegalTrace(START, events)
    ensures var r := Exec(START, events);
            && multiset(r.store.waiting.Keys) + multiset(r.store.active.Keys)
               + multiset(r.store.delayed.Keys) + multiset(r.store.dlq.Keys)
               + multiset(r.finished) == multiset(r.store.jobs.Keys)
            && |r.store.waiting| + |r.store.active| + |r.store.delayed| + |r.store.dlq|
               + |r.finished| == |r.store.jobs|
  {
    var r := Exec(START, events);
    var all := multiset(r.store.waiting.Keys) + multiset(r.store.active.Keys)
               + multiset(r.store.delayed.Keys) + multiset(r.store.dlq.Keys)
               + multiset(r.finished);
    forall id ensures all[id] == multiset(r.store.jobs.Keys)[id] {
      ExactlyOnePlace(events, id);
    }
    assert all == multiset(r.store.jobs.Keys);
    assert |all| == |r.store.waiting.Keys| + |r.store.active.Keys| + |r.store.delayed.Keys|
                    + |r.store.dlq.Keys| + |r.finished|;
  }

  /** The completed list is the newest completions, at most 1000, newest first; and the
      attempts since the last retry are the tail of the log, numbered from 1. */
  lemma {:induction false} History(events: seq<Event>)
    requires LegalTrace(START, events)
    ensures var r := Exec(START, events);
            && |r.store.completed| == (if |r.finished| <= 1000 then |r.finished| else 1000)
            && r.store.completed <= r.finished
            && forall id | id in r.store.jobs :: LogOk(r.store.jobs[id])
  {
    assert Inv(START);
    TraceKeeps(START, events);
    var r := Exec(START, events);
    forall id | id in r.store.jobs ensures LogOk(r.store.jobs[id]) {
      assert JobOk(r, id);
    }
  }

  /** Exponential backoff over the whole life of a job: the (n+1)-th dequeue since its add or
      last retry comes at least 2^n s after the n-th and 1000(2^(n+1) - 2) ms after the first;
      a job being worked on was due when it was taken; and it is never taken more often than
      its attempts allow. */
  lemma {:induction false} BackoffHolds(events: seq<Event>, id: Id)
    requires LegalTrace(START, events)
    ensures var r := Exec(START, events);
            var d := Times(r, id);
            && BacksOff(d)
            && (id in r.store.active ==> id in r.store.jobs && d != [] && r.store.jobs[id].runAt <= d[|d| - 1])
            && (id in r.store.jobs ==> |d| <= Tries(r.store.jobs[id]))
  {
    assert Inv(START);
    TraceKeeps(START, events);
    assert JobOk(Exec(START, events), id);
    SpacedBacksOff(Times(Exec(START, events), id));
  }

  // ---------------------------------------------------------------- what was asked for

  /** The record says what `add` was asked for, an absent option standing for its default. */
  ghost predicate AsAsked(r: Run, e: Event)
    requires e.AddEvent?
  {
    e.id in r.store.jobs &&
    var job, o := r.store.jobs[e.id], e.options;
    && job.kind == e.kind && job.data == e.data && job.createdAt == e.now
    && (job.priority == if o.priority.Some? then o.priority.value else e.defaults.priority)
    && (job.maxAttempts == if o.maxAttempts.Some? then o.maxAttempts.value else e.defaults.maxAttempts)
    && (job.timeout == if o.timeout.Some? then o.timeout.value else 300_000)
    && (job.attemptLog == [] ==> job.runAt == if o.delay.Some? then e.now + o.delay.value else e.now)
  }

  ghost predicate SameRequest(job: Job, job': Job) {
    && job'.kind == job.kind && job'.data == job.data && job'.createdAt == job.createdAt
    && job'.priority == job.priority && job'.maxAttempts == job.maxAttempts && job'.timeout == job.timeout
    && (job'.attemptLog == [] ==> job.attemptLog == [] && job'.runAt == job.runAt)
  }

  lemma {:induction false} NextKeepsRequest(r: Run, e: Event, id: Id)
    requires id in r.store.jobs && Legal(r, e)
    ensures id in Next(r, e).store.jobs && SameRequest(r.store.jobs[id], Next(r, e).store.jobs[id])
  {
  }

  lemma {:induction false} NextAsAsked(r: Run, asked: Event, e: Event)
    requires asked.AddEvent? && AsAsked(r, asked) && Legal(r, e)
    ensures AsAsked(Next(r, e), asked)
  {
    NextKeepsRequest(r, e, asked.id);
  }

  lemma {:induction false} StaysAsAsked(r: Run, asked: Event, events: seq<Event>)
    requires asked.AddEvent? && AsAsked(r, asked) && LegalTrace(r, events)
    ensures AsAsked(Exec(r, events), asked)
    decreases |events|
  {
    if events != [] {
      NextAsAsked(r, asked, events[0]);
      StaysAsAsked(Next(r, events[0]), asked, events[1..]);
    }
  }

  /** From its add on, through every run, a job's record keeps the options it was added with, and they
      decide its place: it waits at minus its priority until it has been delayed or failed, and it is
      in the dead-letter queue exactly when it has been dequeued as often as its maxAttempts says
      (once at least) since its add or last retry and the last dequeue has failed too. */
  lemma {:induction false} OptionsDecide(r: Run, asked: Event, events: seq<Event>)
    requires Inv(r) && asked.AddEvent? && Legal(r, asked) && LegalTrace(Next(r, asked), events)
    ensures var r', id := Exec(Next(r, asked), events), asked.id;
            && AsAsked(r', asked)
            && var job, n := r'.store.jobs[id], |Times(r', id)|;
               && (id in r'.store.waiting && job.runAt <= job.createdAt && job.attemptLog == [] ==>
                     r'.store.waiting[id] == -job.priority)
               && n <= (if job.maxAttempts >= 1 then job.maxAttempts else 1)
               && (id in r'.store.dlq <==>
                     && n == (if job.maxAttempts >= 1 then job.maxAttempts else 1)
                     && id !in r'.store.active && id !in r'.finished)
  {
    NextKeeps(r, asked);
    StaysAsAsked(Next(r, asked), asked, events);
    TraceKeeps(Next(r, asked), events);
    assert JobOk(Exec(Next(r, asked), events), asked.id);
  }

  /** What a queue falls back on that was constructed without options, or with zeros. */
  lemma {:induction false} Fallbacks(priority: Option<int>, maxAttempts: Option<int>)
    ensures DefaultsOf(priority, maxAttempts).priority == if priority.Some? then priority.value else 0
    ensures DefaultsOf(priority, maxAttempts).maxAttempts
            == if maxAttempts.Some? && maxAttempts.value != 0 then maxAttempts.value else 3
  {
  }

  // ---------------------------------------------------------------- bounded work

  /** Work left in a job: three moves for each attempt not yet used up, less those made. */
  function Work(s: Store, id: Id): int {
    if id !in s.jobs then 0
    else
      var attempts := 3 * (Tries(s.jobs[id]) - s.jobs[id].attempts);
      if id in s.delayed then attempts + 2
      else if id in s.waiting then attempts + 1
      else if id in s.active then attempts
      else 0
  }

  function Place(s: Store, id: Id): (bool, bool, bool, bool) {
    (id in s.waiting, id in s.active, id in s.delayed, id in s.dlq)
  }

  ghost predicate Moves(r: Run, e: Event) {
    exists id :: Place(Next(r, e).store, id) != Place(r.store, id)
  }

  ghost function MoveCount(r: Run, events: seq<Event>): nat
    decreases |events|
  {
    if events == [] then 0
    else (if Moves(r, events[0]) then 1 else 0) + MoveCount(Next(r, events[0]), events[1..])
  }

  function TotalWork(s: Store, ids: seq<Id>): int {
    if ids == [] then 0 else Work(s, ids[0]) + TotalWork(s, ids[1..])
  }

  predicate NoNewWork(events: seq<Event>) {
    forall i | 0 <= i < |events| :: !events[i].AddEvent? && !events[i].RetryEvent?
  }

  /** A step takes a job no further from its end, and nearer if it moves it. */
  ghost predicate WorkedOff(s: Store, s': Store, id: Id) {
    && 0 <= Work(s', id) <= Work(s, id)
    && (Place(s', id) != Place(s, id) ==> Work(s', id) < Work(s, id))
  }

  lemma {:induction false} WorkIsNatural(r: Run, id: Id)
    requires JobOk(r, id)
    ensures Work(r.store, id) >= 0
  {
  }

  lemma {:induction false} UntouchedWorkedOff(r: Run, r': Run, id: Id)
    requires JobOk(r, id) && Untouched(r, r', id)
    ensures WorkedOff(r.store, r'.store, id)
  {
    WorkIsNatural(r, id);
  }

  lemma {:induction false} PromotionWorksOff(r: Run, e: Event, id: Id)
    requires e.DequeueEvent? && Legal(r, e) && JobOk(r, id)
    ensures WorkedOff(r.store, AfterPromotion(r, e).store, id)
  {
    PromotionKeeps(r, e, id);
    WorkIsNatural(AfterPromotion(r, e), id);
  }

  lemma {:induction false} PopWorksOff(r: Run, e: Event, id: Id)
    requires e.DequeueEvent? && Legal(r, e) && JobOk(r, id)
    ensures WorkedOff(AfterPromotion(r, e).store, Next(r, e).store, id)
  {
    var p := AfterPromotion(r, e);
    PromotionKeeps(r, e, id);
    PopKeeps(r, e, id);
    if p.store.waiting.Keys == {} || id != First(p.store.waiting) {
      UntouchedWorkedOff(p, Next(r, e), id);
    } else {
      WorkIsNatural(Next(r, e), id);
    }
  }

  lemma {:induction false} CompletionWorksOff(r: Run, e: Event, id: Id)
    requires e.CompleteEvent? && Legal(r, e) && JobOk(r, id)
    ensures WorkedOff(r.store, Next(r, e).store, id)
  {
    WorkIsNatural(r, id);
  }

  lemma {:induction false} FailureWorksOff(r: Run, e: Event, id: Id)
    requires e.FailEvent? && Legal(r, e) && JobOk(r, id)
    ensures WorkedOff(r.store, Next(r, e).store, id)
  {
    FailKeeps(r, e, id);
    WorkIsNatural(Next(r, e), id);
    if id != e.id {
      UntouchedWorkedOff(r, Next(r, e), id);
    } else {
      FailMoves(r, e);
      FailRecords(r, e);
    }
  }

  lemma {:induction false} WorkShrinks(r: Run, e: Event, id: Id)
    requires Inv(r) && Legal(r, e) && !e.AddEvent? && !e.RetryEvent?
    ensures WorkedOff(r.store, Next(r, e).store, id)
  {
    assert JobOk(r, id);
    match e
    case DequeueEvent(_, _) =>
      PromotionWorksOff(r, e, id);
      PopWorksOff(r, e, id);
    case CompleteEvent(_, _, _) => CompletionWorksOff(r, e, id);
    case FailEvent(_, _, _, _) => FailureWorksOff(r, e, id);
  }

  lemma {:induction false} TotalWorkShrinks(r: Run, e: Event, ids: seq<Id>)
    requires Inv(r) && Legal(r, e) && !e.AddEvent? && !e.RetryEvent?
    ensures 0 <= TotalWork(Next(r, e).store, ids) <= TotalWork(r.store, ids)
    ensures (exists id :: id in ids && Place(Next(r, e).store, id) != Place(r.store, id))
            ==> TotalWork(Next(r, e).store, ids) < TotalWork(r.store, ids)
  {
    if ids != [] {
      WorkShrinks(r, e, ids[0]);
      TotalWorkShrinks(r, e, ids[1..]);
    }
  }

  lemma {:induction false} NoNewJobs(r: Run, e: Event)
    requires Inv(r) && Legal(r, e) && !e.AddEvent? && !e.RetryEvent?
    ensures forall id | id in Next(r, e).store.jobs :: id in r.store.jobs
  {
    forall id | id in Next(r, e).store.jobs ensures id in r.store.jobs {
      assert JobOk(r, id);
    }
  }

  /** From any reachable state, with no further add or retry, the operations that move a job
      number at most the work left in the jobs, however the operations are chosen. */
  lemma {:induction false} BoundedWork(r: Run, events: seq<Event>, ids: seq<Id>)
    requires Inv(r) && LegalTrace(r, events) && NoNewWork(events)
    requires forall id :: id in r.store.jobs ==> id in ids
    ensures 0 <= MoveCount(r, events) <= TotalWork(r.store, ids) - TotalWork(Exec(r, events).store, ids)
    ensures TotalWork(Exec(r, events).store, ids) >= 0
    decreases |events|
  {
    if events == [] {
      TotalWorkNonNegative(r, ids);
    } else {
      var e, r' := events[0], Next(r, events[0]);
      NextKeeps(r, e);
      TotalWorkShrinks(r, e, ids);
      NoNewJobs(r, e);
      if Moves(r, e) {
        var id :| Place(r'.store, id) != Place(r.store, id);
        WorkShrinks(r, e, id);
        assert id in ids;
      }
      BoundedWork(r', events[1..], ids);
    }
  }

  lemma {:induction false} TotalWorkNonNegative(r: Run, ids: seq<Id>)
    requires Inv(r)
    ensures TotalWork(r.store, ids) >= 0
  {
    if ids != [] {
      assert JobOk(r, ids[0]);
      TotalWorkNonNegative(r, ids[1..]);
    }
  }

  // ---------------------------------------------------------------- draining

  /** The ids successive dequeues return, up to the first that finds nothing. */
  function Drained(s: Store, times: seq<(int, int)>): (Store, seq<Id>)
    decreases |times|
  {
    if times == [] then (s, [])
    else
      var (s', popped) := Dequeued(s, times[0].0, times[0].1);
      if popped.None? then (s', [])
      else
        var (end, rest) := Drained(s', times[1..]);
        (end, [popped.value] + rest)
  }

  predicate NothingDue(s: Store, times: seq<(int, int)>) {
    forall i, id | 0 <= i < |times| && id in s.delayed :: s.delayed[id] > times[i].0
  }

  /** `ids` is every member of `z` once, in ZPOPMIN order. */
  ghost predicate Lists(z: ZSet, ids: seq<Id>) {
    Ordered(z, ids) && |ids| == |z| && forall id :: id in ids <==> id in z
  }

  /** With nothing due, |waiting| dequeues return every waiting job once, in ascending
      (score, id) order, and move them all to active. */
  lemma {:induction false} DrainingSorts(s: Store, times: seq<(int, int)>)
    requires |times| == |s.waiting| && NothingDue(s, times)
    ensures Lists(s.waiting, Drained(s, times).1)
    ensures Drained(s, times).0.waiting == map[]
    ensures Drained(s, times).0.active.Keys == s.active.Keys + s.waiting.Keys
    decreases |times|
  {
    if times == [] {
      assert s.waiting.Keys == {};
    } else {
      var id, s' := PopsFirst(s, times);
      DrainingSorts(s', times[1..]);
      ListsCons(s.waiting, id, Drained(s', times[1..]).1);
    }
  }

  lemma {:induction false} PopsFirst(s: Store, times: seq<(int, int)>) returns (id: Id, s': Store)
    requires |times| == |s.waiting| > 0 && NothingDue(s, times)
    ensures IsFirst(s.waiting, id)
    ensures s'.waiting == s.waiting - {id} && |s'.waiting| == |s.waiting| - 1
    ensures s'.active.Keys + s'.waiting.Keys == s.active.Keys + s.waiting.Keys
    ensures NothingDue(s', times[1..])
    ensures Drained(s, times) ==
            var (end, rest) := Drained(s', times[1..]);
            (end, [id] + rest)
  {
    id, s' := PopsOne(s, times[0]);
    NothingDueLater(s, times);
  }

  lemma {:induction false} DequeuesFirst(s: Store, t: (int, int))
    requires s.waiting.Keys != {} && forall id | id in s.delayed :: s.delayed[id] > t.0
    ensures var id := First(s.waiting);
            Dequeued(s, t.0, t.1) == (s.(waiting := s.waiting - {id}, active := s.active[id := t.1]), Some(id))
  {
    NothingPromoted(s, t.0);
  }

  lemma {:induction false} WithoutOne(z: ZSet, id: Id)
    requires id in z
    ensures |z - {id}| == |z| - 1
  {
    assert z.Keys == (z - {id}).Keys + {id};
  }

  lemma {:induction false} KeysMove(z: ZSet, to: ZSet, id: Id, score: int)
    requires id in z
    ensures to[id := score].Keys + (z - {id}).Keys == to.Keys + z.Keys
  {
  }

  lemma {:induction false} PopsOne(s: Store, t: (int, int)) returns (id: Id, s': Store)
    requires |s.waiting| > 0
    requires forall id | id in s.delayed :: s.delayed[id] > t.0
    ensures Dequeued(s, t.0, t.1) == (s', Some(id))
    ensures IsFirst(s.waiting, id)
    ensures s'.waiting == s.waiting - {id} && |s'.waiting| == |s.waiting| - 1
    ensures s'.active.Keys + s'.waiting.Keys == s.active.Keys + s.waiting.Keys
    ensures s'.delayed == s.delayed
  {
    assert s.waiting.Keys != {};
    id := First(s.waiting);
    DequeuesFirst(s, t);
    WithoutOne(s.waiting, id);
    KeysMove(s.waiting, s.active, id, t.1);
    s' := s.(waiting := s.waiting - {id}, active := s.active[id := t.1]);
  }

  lemma {:induction false} NothingDueLater(s: Store, times: seq<(int, int)>)
    requires times != [] && NothingDue(s, times)
    ensures NothingDue(s, times[1..])
  {
    assert forall i | 0 <= i < |times| - 1 :: times[1..][i] == times[i + 1];
  }

  lemma {:induction false} ListsCons(z: ZSet, id: Id, rest: seq<Id>)
    requires IsFirst(z, id) && Lists(z - {id}, rest)
    ensures Lists(z, [id] + rest)
  {
    var ids := [id] + rest;
    forall i, j | 0 <= i < j < |ids| ensures ids[i] in z && ids[j] in z && Before(z, ids[i], ids[j]) {
      assert ids[j] == rest[j - 1];
      if i > 0 {
        assert Before(z - {id}, rest[i - 1], rest[j - 1]);
      }
    }
    assert |ids| == |z| by {
      assert z.Keys == (z - {id}).Keys + {id};
    }
  }

  lemma {:induction false} NothingPromoted(s: Store, now: int)
    requires forall id | id in s.delayed :: s.delayed[id] > now
    ensures Promoted(s, now) == s
  {
    assert Due(s.delayed, now) == {};
    assert ZeroScored(s.waiting, {}) == s.waiting;
  }

  ghost predicate PriorityOrdered(jobs: map<Id, Job>, ids: seq<Id>) {
    forall i, j | 0 <= i < j < |ids| && ids[i] in jobs && ids[j] in jobs
                  && Direct(jobs[ids[i]]) && Direct(jobs[ids[j]]) ::
      jobs[ids[i]].priority >= jobs[ids[j]].priority
  }

  /** Jobs added without delay and never failed come out in non-increasing priority. */
  lemma {:induction false} DrainingFollowsPriority(r: Run, times: seq<(int, int)>)
    requires Inv(r) && |times| == |r.store.waiting| && NothingDue(r.store, times)
    ensures PriorityOrdered(r.store.jobs, Drained(r.store, times).1)
  {
    DrainingSorts(r.store, times);
    OrderFollowsPriority(r, Drained(r.store, times).1);
  }

  lemma {:induction false} OrderFollowsPriority(r: Run, ids: seq<Id>)
    requires Inv(r) && Ordered(r.store.waiting, ids)
    ensures PriorityOrdered(r.store.jobs, ids)
  {
    forall i, j | 0 <= i < j < |ids| && ids[i] in r.store.jobs && ids[j] in r.store.jobs
                  && Direct(r.store.jobs[ids[i]]) && Direct(r.store.jobs[ids[j]])
      ensures r.store.jobs[ids[i]].priority >= r.store.jobs[ids[j]].priority
    {
      assert JobOk(r, ids[i]) && JobOk(r, ids[j]);
      assert Before(r.store.waiting, ids[i], ids[j]);
    }
  }

  /** The priority a waiting job still has. */
  function Rank(job: Job): int { if Direct(job) then job.priority else 0 }

  ghost predicate Precedes(ids: seq<Id>, a: Id, b: Id) {
    exists i, j :: 0 <= i < j < |ids| && ids[i] == a && ids[j] == b
  }

  lemma {:induction false} ListedBeforeIff(z: ZSet, ids: seq<Id>, a: Id, b: Id)
    requires Lists(z, ids) && a in z && b in z && a != b
    ensures Precedes(ids, a, b) <==> Before(z, a, b)
  {
    assert a in ids && b in ids;
    var i :| 0 <= i < |ids| && ids[i] == a;
    var j :| 0 <= j < |ids| && ids[j] == b;
    BelowTotal(a, b);
    if i < j {
      assert Before(z, ids[i], ids[j]);
    } else {
      assert Before(z, ids[j], ids[i]);
      if Precedes(ids, a, b) {
        var k, l :| 0 <= k < l < |ids| && ids[k] == a && ids[l] == b;
        assert Before(z, ids[k], ids[l]);
      }
    }
  }

  /** Of two waiting jobs the one of higher remaining priority is drained first, and of two equal
      ones the one with the lesser id. */
  lemma {:induction false} DrainedBeforeIff(r: Run, times: seq<(int, int)>, a: Id, b: Id)
    requires Inv(r) && |times| == |r.store.waiting| && NothingDue(r.store, times)
    requires a in r.store.waiting && b in r.store.waiting && a != b
    ensures a in r.store.jobs && b in r.store.jobs
    ensures var x, y := Rank(r.store.jobs[a]), Rank(r.store.jobs[b]);
            Precedes(Drained(r.store, times).1, a, b) <==> x > y || (x == y && Below(a, b))
  {
    DrainingSorts(r.store, times);
    ListedBeforeIff(r.store.waiting, Drained(r.store, times).1, a, b);
    assert JobOk(r, a) && JobOk(r, b);
  }

  /** Exactly when a job is drained before one of higher priority: never if both still have theirs;
      else if the one that has it is on the right side of 0, or at 0 or both without, by their ids. */
  lemma {:induction false} OvertakesIff(r: Run, times: seq<(int, int)>, a: Id, b: Id)
    requires Inv(r) && |times| == |r.store.waiting| && NothingDue(r.store, times)
    requires a in r.store.waiting && b in r.store.waiting
    requires a in r.store.jobs && b in r.store.jobs && r.store.jobs[a].priority < r.store.jobs[b].priority
    ensures var x, y := r.store.jobs[a], r.store.jobs[b];
            Precedes(Drained(r.store, times).1, a, b) <==>
              if Direct(x) && Direct(y) then false
              else if Direct(x) then x.priority > 0 || (x.priority == 0 && Below(a, b))
              else if Direct(y) then y.priority < 0 || (y.priority == 0 && Below(a, b))
              else Below(a, b)
  {
    DrainedBeforeIff(r, times, a, b);
  }
}
