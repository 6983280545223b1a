/** Many clients of one queue, interleaved command by command. Each client is a thread with a
    program counter over single Redis commands; only the Lua script of `dequeue` is atomic,
    because `pipeline()` batches commands without a transaction. No client crashes. */
module QueueCommands {
  import opened Optional
  import opened Ordering
  import opened QueueModel

  type Thread = nat

  /** What a thread does next. `id` is the job its operation is about. */
  datatype Pc =
    | Idle
    | Adding(id: Id, job: Job)                            // HSET done, ZADD next
    | Promoting(due: seq<Id>, asOf: int, removed: bool)   // ZREM (or ZADD, if removed) of due[0] next
    | Popping                                             // Lua script next
    | Fetching(id: Id)                                    // HGETALL next
    | Holding(id: Id)                                     // the processor runs
    | CompletingRecord(id: Id, result: string, at: int)   // ZREM done, HSET next
    | CompletingPush(id: Id)                              // LPUSH next
    | CompletingTrim                                      // LTRIM next
    | Failing(id: Id, record: Job, error: string)         // HGETALL done, ZREM next
    | FailLogging(id: Id, job: Job)                       // HSET attempts next
    | FailStatus(id: Id, job: Job)                        // HSET status next
    | FailQueueing(id: Id, runAt: Option<int>)            // ZADD next: delayed, or dlq if None
    | RetryRemoving(id: Id)                               // ZSCORE done, ZREM next
    | RetryRecord(id: Id)                                 // HSET next
    | RetryQueueing(id: Id)                               // ZADD next

  datatype Choice =
    | BeginAdd(id: Id, job: Job)
    | BeginDequeue(due: seq<Id>)
    | BeginRetry(id: Id)
    | Complete(result: string)
    | Fail(error: string)
    | Continue

  /** `now` is when Redis executes the command, `read` the clock reading the thread made for it,
      after the reply to its previous command. */
  datatype Command = Command(thread: Thread, choice: Choice, read: int, now: int)

  /** Redis and the threads that are not idle; and the history: every completion in order, the
      clock, when each thread's last command was executed, and when each job was taken since it was
      added or last retried. */
  datatype World = World(store: Store, pcs: map<Thread, Pc>, done: seq<Id>, clock: int,
                         seen: map<Thread, int>, taken: map<Id, seq<int>>)

  const START := World(EMPTY_STORE, map[], [], 0, map[], map[])

  function PcOf(w: World, t: Thread): Pc {
    if t in w.pcs then w.pcs[t] else Idle
  }

  function Seen(w: World, t: Thread): int {
    if t in w.seen then w.seen[t] else 0
  }

  function Times(w: World, id: Id): seq<int> {
    if id in w.taken then w.taken[id] else []
  }

  /** The record `add` writes. */
  predicate IsNew(job: Job, now: int) {
    job.status == Waiting && job.attempts == 0 && job.attemptLog == [] && job.createdAt <= now
  }

  predicate Enabled(w: World, c: Command) {
    Seen(w, c.thread) <= c.read <= c.now && w.clock <= c.now &&
    match c.choice
    case BeginAdd(id, job) => PcOf(w, c.thread) == Idle && id !in w.store.jobs && IsNew(job, c.read)
    case BeginDequeue(due) =>
      && PcOf(w, c.thread) == Idle
      && (forall i | 0 <= i < |due| :: due[i] in Due(w.store.delayed, c.read))
      && (forall id | id in Due(w.store.delayed, c.read) :: id in due)
      && (forall i, j | 0 <= i < j < |due| :: due[i] != due[j])
    case BeginRetry(_) => PcOf(w, c.thread) == Idle
    case Complete(_) => PcOf(w, c.thread).Holding?
    case Fail(_) => PcOf(w, c.thread).Holding?
    case Continue =>
      && !PcOf(w, c.thread).Idle? && !PcOf(w, c.thread).Holding?
      && (PcOf(w, c.thread).Promoting? ==> PcOf(w, c.thread).due != [])
  }

  /** One Redis command: the new contents of Redis, the new completions, the thread's next pc. */
  function Effect(w: World, c: Command): (Store, seq<Id>, Pc)
    requires Enabled(w, c)
  {
    var s := w.store;
    match c.choice
    case BeginAdd(id, job) => (s.(jobs := s.jobs[id := job]), w.done, Adding(id, job))
    case BeginDequeue(due) => (s, w.done, if due == [] then Popping else Promoting(due, c.read, false))
    case BeginRetry(id) => (s, w.done, if id in s.dlq then RetryRemoving(id) else Idle)
    case Complete(result) =>
      var id := PcOf(w, c.thread).id;
      (s.(active := s.active - {id}), w.done, CompletingRecord(id, result, c.read))
    case Fail(error) =>
      var id := PcOf(w, c.thread).id;
      (s, w.done, Failing(id, Record(s.jobs, id), error))
    case Continue =>
      match PcOf(w, c.thread)
      case Adding(id, job) =>
        if job.runAt > job.createdAt then (s.(delayed := s.delayed[id := job.runAt]), w.done, Idle)
        else (s.(waiting := s.waiting[id := -job.priority]), w.done, Idle)
      case Promoting(due, asOf, removed) =>
        if !removed then (s.(delayed := s.delayed - {due[0]}), w.done, Promoting(due, asOf, true))
        else (s.(waiting := s.waiting[due[0] := 0]), w.done,
              if |due| == 1 then Popping else Promoting(due[1..], asOf, false))
      case Popping =>
        var (s', popped) := Popped(s, c.read);
        (s', w.done, if popped.Some? then Fetching(popped.value) else Idle)
      case Fetching(id) => (s, w.done, Holding(id))
      case CompletingRecord(id, result, at) =>
        (s.(jobs := s.jobs[id := Record(s.jobs, id).(
           status := Completed, result := Some(result), completedAt := Some(at))]),
         w.done, CompletingPush(id))
      case CompletingPush(id) => (s.(completed := [id] + s.completed), w.done + [id], CompletingTrim)
      case CompletingTrim => (s.(completed := Prefix(s.completed, HISTORY)), w.done, Idle)
      case Failing(id, record, error) =>
        (s.(active := s.active - {id}), w.done, FailLogging(id, Logged(record, error, c.read)))
      case FailLogging(id, job) =>
        (s.(jobs := s.jobs[id := Record(s.jobs, id).(
           attempts := job.attempts, attemptLog := job.attemptLog, lastError := job.lastError)]),
         w.done, FailStatus(id, job))
      case FailStatus(id, job) =>
        if job.attempts >= job.maxAttempts then
          (s.(jobs := s.jobs[id := Record(s.jobs, id).(status := Failed)]), w.done, FailQueueing(id, None))
        else
          var runAt := c.read + Backoff(job.attempts);
          (s.(jobs := s.jobs[id := Record(s.jobs, id).(status := Waiting, runAt := runAt)]),
           w.done, FailQueueing(id, Some(runAt)))
      case FailQueueing(id, runAt) =>
        if runAt.None? then (s.(dlq := s.dlq[id := c.read]), w.done, Idle)
        else (s.(delayed := s.delayed[id := runAt.value]), w.done, Idle)
      case RetryRemoving(id) => (s.(dlq := s.dlq - {id}), w.done, RetryRecord(id))
      case RetryRecord(id) =>
        (s.(jobs := s.jobs[id := Record(s.jobs, id).(status := Waiting, attempts := 0)]),
         w.done, RetryQueueing(id))
      case RetryQueueing(id) => (s.(waiting := s.waiting[id := 0]), w.done, Idle)
  }

  /** A job is taken by the Lua script; its count starts over when it is added or retried. */
  function Taken(w: World, c: Command): map<Id, seq<int>>
    requires Enabled(w, c)
  {
    match c.choice
    case BeginAdd(id, _) => w.taken[id := []]
    case Continue =>
      (match PcOf(w, c.thread)
       case Popping =>
         if w.store.waiting.Keys == {} then w.taken
         else
           var id := First(w.store.waiting);
           w.taken[id := Times(w, id) + [c.now]]
       case RetryRecord(id) => w.taken[id := []]
       case _ => w.taken)
    case _ => w.taken
  }

  function Step(w: World, c: Command): World
    requires Enabled(w, c)
  {
    var (s, done, pc) := Effect(w, c);
    World(s, w.pcs[c.thread := pc], done, c.now, w.seen[c.thread := c.now], Taken(w, c))
  }

  ghost predicate Trace(w: World, cs: seq<Command>)
    decreases |cs|
  {
    cs == [] || (Enabled(w, cs[0]) && Trace(Step(w, cs[0]), cs[1..]))
  }

  ghost function Exec(w: World, cs: seq<Command>): World
    requires Trace(w, cs)
    decreases |cs|
  {
    if cs == [] then w else Exec(Step(w, cs[0]), cs[1..])
  }

  ghost predicate SeenBefore(w: World) {
    forall t :: Seen(w, t) <= w.clock
  }

  lemma {:induction false} StepSeenBefore(w: World, c: Command)
    requires Enabled(w, c) && SeenBefore(w)
    ensures SeenBefore(Step(w, c))
  {
    forall t ensures Seen(Step(w, c), t) <= c.now {
      assert Seen(w, t) <= w.clock;
    }
  }

  lemma {:induction false} TraceSnoc(w: World, cs: seq<Command>, c: Command)
    requires Trace(w, cs) && Enabled(Exec(w, cs), c)
    ensures Trace(w, cs + [c]) && Exec(w, cs + [c]) == Step(Exec(w, cs), c)
    decreases |cs|
  {
    if cs == [] {
      assert [] + [c] == [c];
    } else {
      assert (cs + [c])[1..] == cs[1..] + [c];
      TraceSnoc(Step(w, cs[0]), cs[1..], c);
    }
  }

  // ---------------------------------------------------------------- where a job is

  datatype Loc = InWaiting | InActive | InDelayed | InDlq | Done(index: nat) | Flight(thread: Thread)

  /** The job a thread has taken out of one structure and not yet put into the next. */
  function Carried(pc: Pc): Option<Id> {
    match pc
    case Adding(id, _) => Some(id)
    case Promoting(due, _, removed) => if removed && due != [] then Some(due[0]) else None
    case CompletingRecord(id, _, _) => Some(id)
    case CompletingPush(id) => Some(id)
    case FailLogging(id, _) => Some(id)
    case FailStatus(id, _) => Some(id)
    case FailQueueing(id, _) => Some(id)
    case RetryRecord(id) => Some(id)
    case RetryQueueing(id) => Some(id)
    case _ => None
  }

  predicate At(w: World, id: Id, loc: Loc) {
    match loc
    case InWaiting => id in w.store.waiting
    case InActive => id in w.store.active
    case InDelayed => id in w.store.delayed
    case InDlq => id in w.store.dlq
    case Done(k) => k < |w.done| && w.done[k] == id
    case Flight(t) => Carried(PcOf(w, t)) == Some(id)
  }

  /** A command takes at most one job from one place to another. */
  datatype Transfer = Stays | Moves(id: Id, from: Option<Loc>, to: Loc)

  function TransferOf(w: World, c: Command): Transfer
    requires Enabled(w, c)
  {
    var here := Flight(c.thread);
    match c.choice
    case BeginAdd(id, _) => Moves(id, None, here)
    case BeginDequeue(_) => Stays
    case BeginRetry(_) => Stays
    case Complete(_) => Moves(PcOf(w, c.thread).id, Some(InActive), here)
    case Fail(_) => Stays
    case Continue =>
      match PcOf(w, c.thread)
      case Adding(id, job) => Moves(id, Some(here), if job.runAt > job.createdAt then InDelayed else InWaiting)
      case Promoting(due, _, removed) =>
        if removed then Moves(due[0], Some(here), InWaiting) else Moves(due[0], Some(InDelayed), here)
      case Popping =>
        if w.store.waiting.Keys == {} then Stays
        else Moves(First(w.store.waiting), Some(InWaiting), InActive)
      case CompletingPush(id) => Moves(id, Some(here), Done(|w.done|))
      case Failing(id, _, _) => Moves(id, Some(InActive), here)
      case FailQueueing(id, runAt) => Moves(id, Some(here), if runAt.None? then InDlq else InDelayed)
      case RetryRemoving(id) => Moves(id, Some(InDlq), here)
      case RetryQueueing(id) => Moves(id, Some(here), InWaiting)
      case _ => Stays
  }

  ghost predicate Relocated(w: World, c: Command, id: Id, loc: Loc)
    requires Enabled(w, c)
  {
    var m := TransferOf(w, c);
    At(Step(w, c), id, loc) <==>
      if m.Moves? && m.id == id then loc == m.to || (At(w, id, loc) && Some(loc) != m.from)
      else At(w, id, loc)
  }

  /** Taking jobs in: the commands of `add` and of `dequeue` after its promotion. */
  predicate Intake(pc: Pc) {
    pc.Adding? || pc.Popping? || pc.Fetching?
  }

  lemma {:induction false} RelocatesIntake(w: World, c: Command, id: Id, loc: Loc)
    requires Enabled(w, c) && !loc.Flight? && c.choice == Continue && Intake(PcOf(w, c.thread))
    ensures Relocated(w, c, id, loc)
  {
  }

  lemma {:induction false} RelocatesPromoted(w: World, c: Command, id: Id, loc: Loc)
    requires Enabled(w, c) && !loc.Flight? && c.choice == Continue && PcOf(w, c.thread).Promoting?
    ensures Relocated(w, c, id, loc)
  {
  }

  predicate InFail(pc: Pc) {
    pc.Failing? || pc.FailLogging? || pc.FailStatus? || pc.FailQueueing?
  }

  lemma {:induction false} RelocatesFailed(w: World, c: Command, id: Id, loc: Loc)
    requires Enabled(w, c) && !loc.Flight? && c.choice == Continue
    requires PcOf(w, c.thread).Failing? || PcOf(w, c.thread).FailQueueing?
    ensures Relocated(w, c, id, loc)
  {
  }

  lemma {:induction false} RelocatesFailing(w: World, c: Command, id: Id, loc: Loc)
    requires Enabled(w, c) && !loc.Flight? && c.choice == Continue
    requires PcOf(w, c.thread).FailLogging? || PcOf(w, c.thread).FailStatus?
    ensures Relocated(w, c, id, loc)
  {
  }

  lemma {:induction false} RelocatesRest(w: World, c: Command, id: Id, loc: Loc)
    requires Enabled(w, c) && !loc.Flight? && c.choice == Continue
    requires !Intake(PcOf(w, c.thread)) && !InFail(PcOf(w, c.thread)) && !PcOf(w, c.thread).Promoting?
    ensures Relocated(w, c, id, loc)
  {
  }

  lemma {:induction false} RelocatesFlight(w: World, c: Command, id: Id, t: Thread)
    requires Enabled(w, c) && c.choice == Continue
    ensures Relocated(w, c, id, Flight(t))
  {
    if t != c.thread {
      assert PcOf(Step(w, c), t) == PcOf(w, t);
      OnlyOwnFlight(w, c, t);
    } else {
      assert PcOf(Step(w, c), t) == Effect(w, c).2;
      OwnFlight(w, c, id);
    }
  }

  lemma {:induction false} OnlyOwnFlight(w: World, c: Command, t: Thread)
    requires Enabled(w, c) && t != c.thread
    ensures var m := TransferOf(w, c);
            m.Moves? ==> m.to != Flight(t) && m.from != Some(Flight(t))
  {
  }

  lemma {:induction false} OwnFlight(w: World, c: Command, id: Id)
    requires Enabled(w, c) && c.choice == Continue
    ensures var m := TransferOf(w, c);
            Carried(Effect(w, c).2) == Some(id) <==>
              if m.Moves? && m.id == id then m.to == Flight(c.thread)
              else Carried(PcOf(w, c.thread)) == Some(id)
    ensures var m := TransferOf(w, c);
            m.Moves? && m.id == id && m.to != Flight(c.thread) && Carried(PcOf(w, c.thread)) == Some(id) ==>
              m.from == Some(Flight(c.thread))
  {
  }

  lemma {:induction false} RelocatesContinued(w: World, c: Command, id: Id, loc: Loc)
    requires Enabled(w, c) && c.choice == Continue && !loc.Flight?
    ensures Relocated(w, c, id, loc)
  {
    if Intake(PcOf(w, c.thread)) {
      RelocatesIntake(w, c, id, loc);
    } else if PcOf(w, c.thread).Promoting? {
      RelocatesPromoted(w, c, id, loc);
    } else if PcOf(w, c.thread).Failing? || PcOf(w, c.thread).FailQueueing? {
      RelocatesFailed(w, c, id, loc);
    } else if InFail(PcOf(w, c.thread)) {
      RelocatesFailing(w, c, id, loc);
    } else {
      RelocatesRest(w, c, id, loc);
    }
  }

  lemma {:induction false} RelocatesBegun(w: World, c: Command, id: Id, loc: Loc)
    requires Enabled(w, c) && c.choice != Continue
    ensures Relocated(w, c, id, loc)
  {
    if loc.Flight? && loc.thread != c.thread {
      assert PcOf(Step(w, c), loc.thread) == PcOf(w, loc.thread);
    }
  }

  /** Every command does exactly its transfer, whether or not the job was where it looked. */
  lemma {:induction false} Relocates(w: World, c: Command, id: Id, loc: Loc)
    requires Enabled(w, c)
    ensures Relocated(w, c, id, loc)
  {
    if c.choice != Continue {
      RelocatesBegun(w, c, id, loc);
    } else if loc.Flight? {
      RelocatesFlight(w, c, id, loc.thread);
    } else {
      RelocatesContinued(w, c, id, loc);
    }
  }
}
