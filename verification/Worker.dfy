/** One worker process: a single-threaded event loop whose `_poll` gives way at each await.
    An event is what happens between two awaits. */
module WorkerModel {
  import opened Ordering

  /** Where one poll loop is. `left` counts the dequeues it may still start, the pending one
      included; `batch` holds the jobs it has started and has still to wait for. */
  datatype Phase =
    | Parked
    | Awaiting(left: nat, batch: set<Id>)
    | Draining(batch: set<Id>)
    | Ended

  datatype Reply = Got(id: Id) | Empty | Throws

  datatype Event =
    | Start
    | Fire(loop: nat)
    | Answer(loop: nat, reply: Reply)
    | Settle(ids: set<Id>)
    | Resume(loop: nat)
    | Stop

  /** `timer` is the loop whose timer handle `_pollTimer` holds. */
  datatype State = State(concurrency: nat, running: bool, active: set<Id>, loops: seq<Phase>, timer: int)

  predicate Legal(s: State, e: Event) {
    match e
    case Start => true
    case Fire(k) => k < |s.loops| && s.loops[k] == Parked
    case Answer(k, reply) =>
      && k < |s.loops| && s.loops[k].Awaiting? && s.loops[k].left > 0
      && (reply.Got? ==> reply.id !in s.active)
    case Settle(ids) => ids <= s.active
    case Resume(k) => k < |s.loops| && s.loops[k] == Draining({})
    case Stop => true
  }

  function Awaited(p: Phase): set<Id> {
    match p
    case Awaiting(_, batch) => batch
    case Draining(batch) => batch
    case _ => {}
  }

  function Relieved(p: Phase, ids: set<Id>): Phase {
    match p
    case Awaiting(left, batch) => Awaiting(left, batch - ids)
    case Draining(batch) => Draining(batch - ids)
    case _ => p
  }

  /** No loop waits any more for jobs that are settled. */
  function Settled(ps: seq<Phase>, ids: set<Id>): seq<Phase> {
    seq(|ps|, i requires 0 <= i < |ps| => Relieved(ps[i], ids))
  }

  /** The first stretch of `_poll`: count the free slots and ask for a job, or wait again. */
  function Begin(s: State, k: nat): State
    requires k < |s.loops|
  {
    var slots := s.concurrency - |s.active|;
    if slots > 0 then s.(loops := s.loops[k := Awaiting(slots, {})])
    else s.(loops := s.loops[k := Parked], timer := k)
  }

  function Next(s: State, e: Event): State
    requires Legal(s, e)
  {
    match e
    case Start => Begin(s.(running := true, loops := s.loops + [Parked]), |s.loops|)
    case Fire(k) => if s.running then Begin(s, k) else s.(loops := s.loops[k := Ended])
    case Answer(k, reply) =>
      var Awaiting(left, batch) := s.loops[k];
      (match reply
       case Got(id) =>
         s.(active := s.active + {id},
            loops := s.loops[k := if left > 1 then Awaiting(left - 1, batch + {id}) else Draining(batch + {id})])
       case Empty => s.(loops := s.loops[k := Draining(batch)])
       case Throws => s.(loops := s.loops[k := Parked], timer := k))
    case Settle(ids) => s.(active := s.active - ids, loops := Settled(s.loops, ids))
    case Resume(k) => s.(loops := s.loops[k := Parked], timer := k)
    case Stop =>
      var k := s.timer;
      s.(running := false,
         loops := if 0 <= k < |s.loops| && s.loops[k] == Parked then s.loops[k := Ended] else s.loops)
  }

  function Fresh(concurrency: nat): State { State(concurrency, false, {}, [], -1) }

  predicate Trace(s: State, es: seq<Event>)
    decreases |es|
  {
    es == [] || (Legal(s, es[0]) && Trace(Next(s, es[0]), es[1..]))
  }

  function Exec(s: State, es: seq<Event>): State
    requires Trace(s, es)
    decreases |es|
  {
    if es == [] then s else Exec(Next(s, es[0]), es[1..])
  }

  // ---------------------------------------------------------------- bound

  function Reserved(p: Phase): nat { if p.Awaiting? then p.left else 0 }

  function TotalReserved(ps: seq<Phase>): nat {
    if ps == [] then 0 else Reserved(ps[0]) + TotalReserved(ps[1..])
  }

  lemma {:induction false} TotalReservedUpdate(ps: seq<Phase>, k: nat, p: Phase)
    requires k < |ps|
    ensures TotalReserved(ps[k := p]) == TotalReserved(ps) - Reserved(ps[k]) + Reserved(p)
  {
    if k > 0 {
      assert ps[k := p][1..] == ps[1..][k - 1 := p];
      TotalReservedUpdate(ps[1..], k - 1, p);
    } else {
      assert ps[k := p][1..] == ps[1..];
    }
  }

  lemma {:induction false} OneMore(c: nat, n: nat)
    ensures c * n <= c * (n + 1) == c * n + c
  {
  }

  lemma {:induction false} TotalReservedBound(ps: seq<Phase>, k: nat, c: nat)
    requires k < |ps| && forall i | 0 <= i < |ps| :: Reserved(ps[i]) <= c
    ensures TotalReserved(ps) - Reserved(ps[k]) <= c * (|ps| - 1)
    ensures TotalReserved(ps) <= c * |ps|
  {
    OneMore(c, |ps| - 1);
    if |ps| == 1 {
      assert TotalReserved(ps[1..]) == 0;
    } else {
      OneMore(c, |ps| - 2);
      TotalReservedBound(ps[1..], if k > 0 then k - 1 else 0, c);
    }
  }

  lemma {:induction false} TotalReservedAppend(ps: seq<Phase>, p: Phase)
    ensures TotalReserved(ps + [p]) == TotalReserved(ps) + Reserved(p)
  {
    if ps == [] {
      assert [] + [p] == [p];
    } else {
      assert (ps + [p])[1..] == ps[1..] + [p];
      TotalReservedAppend(ps[1..], p);
    }
  }

  /** Jobs held and dequeues still allowed stay within the concurrency times the loops started. */
  ghost predicate Bounded(s: State) {
    && (forall i | 0 <= i < |s.loops| :: Reserved(s.loops[i]) <= s.concurrency)
    && |s.active| + TotalReserved(s.loops) <= s.concurrency * |s.loops|
  }

  lemma {:induction false} BeginBounded(s: State, k: nat)
    requires Bounded(s) && k < |s.loops| && Reserved(s.loops[k]) == 0
    ensures Bounded(Begin(s, k))
  {
    var slots := s.concurrency - |s.active|;
    TotalReservedUpdate(s.loops, k, Parked);
    if slots > 0 {
      TotalReservedUpdate(s.loops, k, Awaiting(slots, {}));
      TotalReservedBound(s.loops, k, s.concurrency);
      assert s.concurrency * |s.loops| == s.concurrency * (|s.loops| - 1) + s.concurrency;
    }
  }

  /** An event that sets one loop to a phase with no more slots left and takes up no more jobs
      than slots does not raise the load. */
  lemma {:induction false} LoopSetLoad(s: State, s': State, k: nat, p: Phase)
    requires Bounded(s) && k < |s.loops| && s'.loops == s.loops[k := p] && s'.concurrency == s.concurrency
    requires Reserved(p) <= Reserved(s.loops[k]) && |s'.active| + Reserved(p) <= |s.active| + Reserved(s.loops[k])
    ensures Bounded(s')
  {
    TotalReservedUpdate(s.loops, k, p);
  }

  lemma {:induction false} SettledReserved(ps: seq<Phase>, ids: set<Id>)
    ensures TotalReserved(Settled(ps, ids)) == TotalReserved(ps)
  {
    if ps != [] {
      assert Settled(ps, ids)[1..] == Settled(ps[1..], ids);
      SettledReserved(ps[1..], ids);
    }
  }

  lemma {:induction false} SettleBounded(s: State, ids: set<Id>)
    requires Bounded(s) && ids <= s.active
    ensures Bounded(Next(s, Settle(ids)))
  {
    SettledReserved(s.loops, ids);
    assert s.active == (s.active - ids) + ids;
  }

  lemma {:induction false} AnswerBounded(s: State, e: Event)
    requires Bounded(s) && e.Answer? && Legal(s, e)
    ensures Bounded(Next(s, e))
  {
    LoopSetLoad(s, Next(s, e), e.loop, Next(s, e).loops[e.loop]);
  }

  lemma {:induction false} OtherBounded(s: State, e: Event)
    requires Bounded(s) && (e.Resume? || e.Stop?) && Legal(s, e)
    ensures Bounded(Next(s, e))
  {
    if e.Resume? {
      LoopSetLoad(s, Next(s, e), e.loop, Parked);
    } else if 0 <= s.timer < |s.loops| && s.loops[s.timer] == Parked {
      LoopSetLoad(s, Next(s, e), s.timer, Ended);
    }
  }

  lemma {:induction false} AppendBounded(s: State)
    requires Bounded(s)
    ensures Bounded(s.(running := true, loops := s.loops + [Parked]))
  {
    TotalReservedAppend(s.loops, Parked);
    OneMore(s.concurrency, |s.loops|);
  }

  lemma {:induction false} StartBounded(s: State)
    requires Bounded(s)
    ensures Bounded(Next(s, Start))
  {
    AppendBounded(s);
    BeginBounded(s.(running := true, loops := s.loops + [Parked]), |s.loops|);
  }

  lemma {:induction false} NextBounded(s: State, e: Event)
    requires Bounded(s) && Legal(s, e)
    ensures Bounded(Next(s, e))
  {
    if e.Start? {
      StartBounded(s);
    } else if e.Fire? {
      TotalReservedUpdate(s.loops, e.loop, Ended);
      if s.running { BeginBounded(s, e.loop); }
    } else if e.Settle? {
      SettleBounded(s, e.ids);
    } else if e.Answer? {
      AnswerBounded(s, e);
    } else {
      OtherBounded(s, e);
    }
  }

  function Starts(es: seq<Event>): nat {
    if es == [] then 0 else (if es[0].Start? then 1 else 0) + Starts(es[1..])
  }

  lemma {:induction false} ExecBounded(s: State, es: seq<Event>)
    requires Bounded(s) && Trace(s, es)
    ensures Bounded(Exec(s, es)) && Exec(s, es).concurrency == s.concurrency
    ensures |Exec(s, es).loops| == |s.loops| + Starts(es)
    decreases |es|
  {
    if es != [] {
      NextBounded(s, es[0]);
      ExecBounded(Next(s, es[0]), es[1..]);
    }
  }

  /** However its awaits interleave with settlements, timers, errors and stops, a worker started
      n times never holds more than n times its concurrency; started once, never more than it. */
  lemma {:induction false} WorkerBound(concurrency: nat, es: seq<Event>)
    requires Trace(Fresh(concurrency), es)
    ensures |Exec(Fresh(concurrency), es).active| <= concurrency * Starts(es)
    ensures Starts(es) <= 1 ==> |Exec(Fresh(concurrency), es).active| <= concurrency
  {
    ExecBounded(Fresh(concurrency), es);
    if Starts(es) == 0 {
      assert concurrency * 0 == 0;
    } else if Starts(es) == 1 {
      assert concurrency * 1 == concurrency;
    }
  }

  lemma {:induction false} UnusedId(used: set<Id>) returns (id: Id)
    ensures id !in used
  {
    id := LongerThan(used);
  }

  lemma {:induction false} LongerThan(used: set<Id>) returns (id: Id)
    ensures forall u | u in used :: |u| < |id|
    decreases used
  {
    id := "";
    if used != {} {
      var u :| u in used;
      var rest := LongerThan(used - {u});
      id := if |u| < |rest| then rest else u + "x";
      assert used == used - {u} + {u};
    }
  }

  lemma {:induction false} TraceJoined(s: State, es: seq<Event>, es': seq<Event>)
    requires Trace(s, es) && Trace(Exec(s, es), es')
    ensures Trace(s, es + es') && Exec(s, es + es') == Exec(Exec(s, es), es')
    ensures Starts(es + es') == Starts(es) + Starts(es')
    decreases |es|
  {
    if es == [] {
      assert [] + es' == es';
    } else {
      assert (es + es')[1..] == es[1..] + es';
      TraceJoined(Next(s, es[0]), es[1..], es');
    }
  }

  lemma {:induction false} OneMoreEvent(s: State, es: seq<Event>, e: Event) returns (es': seq<Event>)
    requires Trace(s, es) && Legal(Exec(s, es), e)
    ensures es' == es + [e] && Trace(s, es') && Exec(s, es') == Next(Exec(s, es), e)
    ensures Starts(es') == Starts(es) + if e.Start? then 1 else 0
  {
    assert [e][1..] == [] && Starts([e][1..]) == 0;
    TraceJoined(s, es, [e]);
    es' := es + [e];
  }

  /** A poll whose every dequeue returns a job takes as many as it has slots. */
  lemma {:induction false} FillLoop(s: State, k: nat) returns (es: seq<Event>)
    requires k < |s.loops| && s.loops[k].Awaiting? && s.loops[k].left > 0
    ensures Trace(s, es) && Starts(es) == 0
    ensures var s' := Exec(s, es);
            && |s'.active| == |s.active| + s.loops[k].left && |s'.loops| == |s.loops|
            && forall i | 0 <= i < |s.loops| && i != k :: s'.loops[i] == s.loops[i]
    decreases s.loops[k].left
  {
    var id := UnusedId(s.active);
    var e := Answer(k, Got(id));
    var s1 := Next(s, e);
    var rest: seq<Event> := [];
    if s.loops[k].left > 1 {
      rest := FillLoop(s1, k);
    }
    es := [e] + rest;
    assert es[1..] == rest;
  }

  lemma {:induction false} FillLoops(s: State, k: nat) returns (es: seq<Event>)
    requires k <= |s.loops| && forall i | 0 <= i < k :: s.loops[i] == Awaiting(s.concurrency, {})
    requires s.concurrency > 0
    ensures Trace(s, es) && Starts(es) == 0 && |Exec(s, es).active| == |s.active| + s.concurrency * k
    decreases k
  {
    if k == 0 {
      es := [];
    } else {
      var first := FillLoop(s, k - 1);
      var s1 := Exec(s, first);
      assert s1.concurrency == s.concurrency by { ExecKeepsConcurrency(s, first); }
      var rest := FillLoops(s1, k - 1);
      TraceJoined(s, first, rest);
      es := first + rest;
      assert s.concurrency * k == s.concurrency * (k - 1) + s.concurrency;
    }
  }

  lemma {:induction false} ExecKeepsConcurrency(s: State, es: seq<Event>)
    requires Trace(s, es)
    ensures Exec(s, es).concurrency == s.concurrency
    decreases |es|
  {
    if es != [] {
      ExecKeepsConcurrency(Next(s, es[0]), es[1..]);
    }
  }

  lemma {:induction false} StartMany(s: State, n: nat) returns (es: seq<Event>)
    requires s.active == {} && s.concurrency > 0
    requires forall i | 0 <= i < |s.loops| :: s.loops[i] == Awaiting(s.concurrency, {})
    ensures Trace(s, es) && Starts(es) == n
    ensures var s' := Exec(s, es);
            && s'.active == {} && s'.concurrency == s.concurrency && |s'.loops| == |s.loops| + n
            && forall i | 0 <= i < |s'.loops| :: s'.loops[i] == Awaiting(s.concurrency, {})
    decreases n
  {
    es := [];
    if n > 0 {
      var rest := StartMany(Next(s, Start), n - 1);
      es := [Start] + rest;
      assert es[1..] == rest;
    }
  }

  /** The bound is attained: started n times, a worker can hold n times its concurrency. */
  lemma {:induction false} BoundAttained(concurrency: nat, n: nat) returns (es: seq<Event>)
    requires concurrency > 0
    ensures Trace(Fresh(concurrency), es) && Starts(es) == n
    ensures |Exec(Fresh(concurrency), es).active| == concurrency * n
  {
    var starts := StartMany(Fresh(concurrency), n);
    var s := Exec(Fresh(concurrency), starts);
    var fills := FillLoops(s, n);
    TraceJoined(Fresh(concurrency), starts, fills);
    es := starts + fills;
  }

  /** Holding no more than its concurrency, whatever happens, is a promise a worker keeps if and only
      if it is started at most once. */
  lemma {:induction false} WithinConcurrencyIff(concurrency: nat, n: nat)
    requires concurrency > 0
    ensures (forall es | Trace(Fresh(concurrency), es) && Starts(es) <= n ::
              |Exec(Fresh(concurrency), es).active| <= concurrency)
            <==> n <= 1
  {
    if n <= 1 {
      forall es | Trace(Fresh(concurrency), es) && Starts(es) <= n
        ensures |Exec(Fresh(concurrency), es).active| <= concurrency
      {
        WorkerBound(concurrency, es);
      }
    } else {
      var es := BoundAttained(concurrency, 2);
      assert concurrency * 2 > concurrency;
    }
  }

  // ---------------------------------------------------------------- batches

  predicate NoThrows(es: seq<Event>) {
    forall i | 0 <= i < |es| && es[i].Answer? :: es[i].reply != Throws
  }

  /** With one loop, every held job belongs to the poll under way. */
  ghost predicate Batched(s: State) {
    && |s.loops| <= 1
    && (s.loops == [] ==> s.active == {})
    && (|s.loops| == 1 ==>
          match s.loops[0]
          case Awaiting(_, batch) => s.active <= batch
          case Draining(batch) => s.active <= batch
          case _ => s.active == {})
  }

  /** Started once and with no dequeue error, a worker works in batches: whenever its loop is
      between polls it holds no job, so each poll asks for `concurrency` jobs and no later poll
      begins before all of them are settled. */
  lemma {:induction false} WorksInBatches(s: State, es: seq<Event>)
    requires Batched(s) && Trace(s, es) && NoThrows(es) && |s.loops| + Starts(es) <= 1
    ensures Batched(Exec(s, es))
    decreases |es|
  {
    if es != [] {
      NextBatched(s, es[0]);
      WorksInBatches(Next(s, es[0]), es[1..]);
    }
  }

  lemma {:induction false} NextBatched(s: State, e: Event)
    requires Batched(s) && Legal(s, e) && (e.Answer? ==> e.reply != Throws)
    requires |s.loops| + (if e.Start? then 1 else 0) <= 1
    ensures Batched(Next(s, e)) && |Next(s, e).loops| == |s.loops| + (if e.Start? then 1 else 0)
  {
    if e.Resume? && e.loop == 0 {
      assert s.active == {};
    }
  }

  // ---------------------------------------------------------------- stop

  function Taken(es: seq<Event>): nat {
    if es == [] then 0
    else (if es[0].Answer? && es[0].reply.Got? then 1 else 0) + Taken(es[1..])
  }

  /** A stopped worker that is not started again takes at most the jobs its polls under way
      had slots for, and no loop ever polls again. */
  lemma {:induction false} StoppedTakesAtMostReserved(s: State, es: seq<Event>)
    requires Trace(s, es) && !s.running && Starts(es) == 0
    ensures Taken(es) + TotalReserved(Exec(s, es).loops) <= TotalReserved(s.loops)
    decreases |es|
  {
    if es != [] {
      var s' := Next(s, es[0]);
      match es[0] {
        case Fire(k) => TotalReservedUpdate(s.loops, k, Ended);
        case Answer(k, _) => TotalReservedUpdate(s.loops, k, s'.loops[k]);
        case Settle(ids) => SettledReserved(s.loops, ids);
        case Resume(k) => TotalReservedUpdate(s.loops, k, Parked);
        case Stop =>
          if 0 <= s.timer < |s.loops| && s.loops[s.timer] == Parked {
            TotalReservedUpdate(s.loops, s.timer, Ended);
          }
        case _ =>
      }
      StoppedTakesAtMostReserved(s', es[1..]);
    }
  }

  lemma {:induction false} ReservingLoop(ps: seq<Phase>) returns (k: nat)
    requires TotalReserved(ps) > 0
    ensures k < |ps| && ps[k].Awaiting? && ps[k].left > 0
  {
    if Reserved(ps[0]) > 0 {
      k := 0;
    } else {
      k := ReservingLoop(ps[1..]);
      k := k + 1;
    }
  }

  lemma {:induction false} OneTaken(e: Event)
    requires e.Answer? && e.reply.Got?
    ensures Starts([e]) == 0 && Taken([e]) == 1
  {
    assert [e][1..] == [];
    assert Starts([e][1..]) == 0 && Taken([e][1..]) == 0;
  }

  /** `stop` does not interrupt a poll under way: a stopped worker that is not started again is sure
      to take no further job if and only if no poll has a slot left to fill. */
  lemma {:induction false} StoppedTakesNoneIff(s: State)
    requires !s.running
    ensures (forall es | Trace(s, es) && Starts(es) == 0 :: Taken(es) == 0) <==> TotalReserved(s.loops) == 0
  {
    if TotalReserved(s.loops) == 0 {
      forall es | Trace(s, es) && Starts(es) == 0 ensures Taken(es) == 0 {
        StoppedTakesAtMostReserved(s, es);
      }
    } else {
      var k := ReservingLoop(s.loops);
      var id := UnusedId(s.active);
      OneTaken(Answer(k, Got(id)));
      assert Trace(s, [Answer(k, Got(id))]);
    }
  }

  /** Every timer that fires ends its loop. */
  predicate FiresEnd(s: State, es: seq<Event>)
    requires Trace(s, es)
    decreases |es|
  {
    es == [] ||
    ((es[0].Fire? ==> Next(s, es[0]).loops[es[0].loop] == Ended) && FiresEnd(Next(s, es[0]), es[1..]))
  }

  lemma {:induction false} StoppedStays(s: State, es: seq<Event>)
    requires Trace(s, es) && !s.running && Starts(es) == 0
    ensures !Exec(s, es).running && FiresEnd(s, es)
    decreases |es|
  {
    if es != [] {
      StoppedStays(Next(s, es[0]), es[1..]);
    }
  }

  lemma {:induction false} StopReserves(s: State)
    ensures TotalReserved(Next(s, Stop).loops) == TotalReserved(s.loops)
  {
    if 0 <= s.timer < |s.loops| && s.loops[s.timer] == Parked {
      TotalReservedUpdate(s.loops, s.timer, Ended);
    }
  }

  /** After `stop`, until it is started again, a worker takes at most the jobs its polls under way had
      slots for, and every timer that fires ends its loop. */
  lemma {:induction false} StopIsFinal(s: State, es: seq<Event>)
    requires Trace(Next(s, Stop), es) && Starts(es) == 0
    ensures Taken(es) <= TotalReserved(s.loops)
    ensures FiresEnd(Next(s, Stop), es) && !Exec(Next(s, Stop), es).running
  {
    StopReserves(s);
    StoppedTakesAtMostReserved(Next(s, Stop), es);
    StoppedStays(Next(s, Stop), es);
  }

  function SettledIn(es: seq<Event>): set<Id> {
    if es == [] then {} else (if es[0].Settle? then es[0].ids else {}) + SettledIn(es[1..])
  }

  lemma {:induction false} HoldsOnlyTheRest(s: State, es: seq<Event>)
    requires Trace(s, es) && Taken(es) == 0
    ensures Exec(s, es).active == s.active - SettledIn(es)
    decreases |es|
  {
    if es != [] {
      HoldsOnlyTheRest(Next(s, es[0]), es[1..]);
    }
  }

  lemma {:induction false} TakenAfterStop(s: State) returns (es: seq<Event>)
    requires TotalReserved(s.loops) > 0
    ensures Trace(Next(s, Stop), es) && Starts(es) == 0 && s.active <= SettledIn(es)
    ensures Exec(Next(s, Stop), es).active != {}
  {
    var s0 := Next(s, Stop);
    var k := ReservingLoop(s.loops);
    var id := UnusedId(s.active);
    es := OneMoreEvent(s0, [], Answer(k, Got(id)));
    es := OneMoreEvent(s0, es, Settle(s.active));
    assert es[1..] == [Settle(s.active)] && es[1..][1..] == [];
    assert SettledIn(es[1..]) == s.active;
    assert id in Exec(s0, es).active;
  }

  /** `stop` waits for the jobs held when it is called. That the worker then holds none is sure if and
      only if no poll under way has a slot left to fill. */
  lemma {:induction false} StopDrainsIff(s: State)
    ensures (forall es | Trace(Next(s, Stop), es) && Starts(es) == 0 && s.active <= SettledIn(es) ::
               Exec(Next(s, Stop), es).active == {})
            <==> TotalReserved(s.loops) == 0
  {
    if TotalReserved(s.loops) == 0 {
      forall es | Trace(Next(s, Stop), es) && Starts(es) == 0 && s.active <= SettledIn(es)
        ensures Exec(Next(s, Stop), es).active == {}
      {
        StopIsFinal(s, es);
        HoldsOnlyTheRest(Next(s, Stop), es);
      }
    } else {
      var es := TakenAfterStop(s);
    }
  }

  // ---------------------------------------------------------------- timers

  predicate NoneParked(s: State) { forall k | 0 <= k < |s.loops| :: s.loops[k] != Parked }

  /** With one loop, the handle is that of its timer. */
  predicate OneTimer(s: State) { |s.loops| <= 1 && (|s.loops| == 1 && s.loops[0] == Parked ==> s.timer == 0) }

  lemma {:induction false} ExecOneTimer(s: State, es: seq<Event>)
    requires OneTimer(s) && Trace(s, es) && |s.loops| + Starts(es) <= 1
    ensures OneTimer(Exec(s, es))
    decreases |es|
  {
    if es != [] {
      ExecOneTimer(Next(s, es[0]), es[1..]);
    }
  }

  /** A poll that finds nothing. */
  lemma {:induction false} StartsAndParks(s: State) returns (es: seq<Event>)
    ensures Trace(s, es) && Starts(es) == 1 && |Exec(s, es).loops| == |s.loops| + 1
    ensures var s' := Exec(s, es);
            s'.loops[|s.loops|] == Parked && s'.loops[..|s.loops|] == s.loops && s'.timer == |s.loops|
  {
    var k := |s.loops|;
    es := OneMoreEvent(s, [], Start);
    if Exec(s, es).loops[k] != Parked {
      es := OneMoreEvent(s, es, Answer(k, Empty));
      es := OneMoreEvent(s, es, Resume(k));
    }
  }

  /** `stop` is sure to leave no timer behind if and only if the worker is started at most once: the
      handle of an earlier poll is overwritten. */
  lemma {:induction false} NoTimerLeftIff(concurrency: nat, n: nat)
    ensures (forall es | Trace(Fresh(concurrency), es) && Starts(es) <= n ::
               NoneParked(Next(Exec(Fresh(concurrency), es), Stop)))
            <==> n <= 1
  {
    if n <= 1 {
      forall es | Trace(Fresh(concurrency), es) && Starts(es) <= n
        ensures NoneParked(Next(Exec(Fresh(concurrency), es), Stop))
      {
        ExecOneTimer(Fresh(concurrency), es);
      }
    } else {
      var a := StartsAndParks(Fresh(concurrency));
      var s1 := Exec(Fresh(concurrency), a);
      var b := StartsAndParks(s1);
      TraceJoined(Fresh(concurrency), a, b);
      var s2 := Exec(Fresh(concurrency), a + b);
      assert s2.loops[..1][0] == s1.loops[0] == Parked;
      assert Next(s2, Stop).loops[0] == Parked;
    }
  }

  // ---------------------------------------------------------------- polling

  /** Jobs waited for are held, and a loop that waits for an answer has asked. */
  predicate Live(s: State) {
    forall k | 0 <= k < |s.loops| ::
      s.loops[k] != Ended && Awaited(s.loops[k]) <= s.active && (s.loops[k].Awaiting? ==> s.loops[k].left > 0)
  }

  predicate NoStops(es: seq<Event>) { forall i | 0 <= i < |es| :: es[i] != Stop }

  lemma {:induction false} NextLive(s: State, e: Event)
    requires Live(s) && Legal(s, e) && e != Stop && (s.loops != [] ==> s.running)
    ensures Live(Next(s, e)) && (Next(s, e).loops != [] ==> Next(s, e).running)
  {
  }

  lemma {:induction false} ExecLive(s: State, es: seq<Event>)
    requires Live(s) && Trace(s, es) && NoStops(es) && (s.loops != [] ==> s.running)
    ensures Live(Exec(s, es)) && (Exec(s, es).loops != [] ==> Exec(s, es).running)
    decreases |es|
  {
    if es != [] {
      NextLive(s, es[0]);
      assert forall i | 0 <= i < |es| - 1 :: es[1..][i] == es[i + 1];
      ExecLive(Next(s, es[0]), es[1..]);
    }
  }

  lemma {:induction false} ComesBack(s: State, k: nat) returns (es: seq<Event>)
    requires Live(s) && k < |s.loops|
    ensures Trace(s, es) && |es| <= 3 && Exec(s, es).running == s.running
    ensures |Exec(s, es).loops| == |s.loops| && Exec(s, es).loops[k] == Parked
  {
    es := [];
    if s.loops[k].Awaiting? {
      es := OneMoreEvent(s, es, Answer(k, Empty));
    }
    if s.loops[k] != Parked {
      es := OneMoreEvent(s, es, Settle(s.loops[k].batch));
      es := OneMoreEvent(s, es, Resume(k));
    }
  }

  /** Until it is stopped a worker keeps polling, dequeue errors or not: no loop ends, each can come
      to its next timer as soon as its jobs are settled, and the timer's poll asks for as many jobs as
      the worker has room for. */
  lemma {:induction false} KeepsPolling(concurrency: nat, es: seq<Event>, k: nat) returns (more: seq<Event>)
    requires Trace(Fresh(concurrency), es) && NoStops(es) && k < |Exec(Fresh(concurrency), es).loops|
    ensures var s := Exec(Fresh(concurrency), es);
            && s.loops[k] != Ended && Trace(s, more) && |more| <= 3 && Legal(Exec(s, more), Fire(k))
            && var s' := Exec(s, more);
               Next(s', Fire(k)).loops[k]
               == if concurrency > |s'.active| then Awaiting(concurrency - |s'.active|, {}) else Parked
  {
    ExecLive(Fresh(concurrency), es);
    ExecKeepsConcurrency(Fresh(concurrency), es);
    more := ComesBack(Exec(Fresh(concurrency), es), k);
    ExecKeepsConcurrency(Exec(Fresh(concurrency), es), more);
  }

  /** A poll whose dequeue found nothing, or threw, asks for no more jobs. */
  lemma {:induction false} AsksNoMore(s: State, k: nat, es: seq<Event>)
    requires k < |s.loops| && !s.loops[k].Awaiting? && Trace(s, es) && Fire(k) !in es
    ensures forall i | 0 <= i < |es| && es[i].Answer? :: es[i].loop != k
    decreases |es|
  {
    if es != [] {
      AsksNoMore(Next(s, es[0]), k, es[1..]);
      assert forall i | 1 <= i < |es| :: es[i] == es[1..][i - 1];
    }
  }

  lemma {:induction false} UnansweredAsksNoMore(s: State, k: nat, reply: Reply, es: seq<Event>)
    requires Legal(s, Answer(k, reply)) && !reply.Got?
    requires Trace(Next(s, Answer(k, reply)), es) && Fire(k) !in es
    ensures forall i | 0 <= i < |es| && es[i].Answer? :: es[i].loop != k
  {
    AsksNoMore(Next(s, Answer(k, reply)), k, es);
  }

  /** A poll that still asks has taken nothing. */
  ghost predicate OneSlot(s: State) {
    Batched(s) && s.concurrency <= 1 && (|s.loops| == 1 && s.loops[0].Awaiting? ==> s.loops[0] == Awaiting(1, {}))
  }

  lemma {:induction false} NextOneSlot(s: State, e: Event)
    requires OneSlot(s) && Legal(s, e) && |s.loops| + (if e.Start? then 1 else 0) <= 1
    ensures OneSlot(Next(s, e)) && |Next(s, e).loops| == |s.loops| + (if e.Start? then 1 else 0)
  {
    match e
    case Settle(ids) => assert s.active <= {} ==> ids == {};
    case Resume(k) => assert s.active == {};
    case _ =>
  }

  lemma {:induction false} OneSlotBatches(s: State, es: seq<Event>)
    requires OneSlot(s) && Trace(s, es) && |s.loops| + Starts(es) <= 1
    ensures Batched(Exec(s, es))
    decreases |es|
  {
    if es != [] {
      NextOneSlot(s, es[0]);
      OneSlotBatches(Next(s, es[0]), es[1..]);
    }
  }

  /** Whatever its dequeues do, errors included, a worker is sure to work in batches if and only if it
      takes one job at a time: an error after a job sends it to its next poll with that job unsettled. */
  lemma {:induction false} BatchesDespiteErrorsIff(concurrency: nat)
    ensures (forall es | Trace(Fresh(concurrency), es) && Starts(es) <= 1 :: Batched(Exec(Fresh(concurrency), es)))
            <==> concurrency <= 1
  {
    if concurrency <= 1 {
      forall es | Trace(Fresh(concurrency), es) && Starts(es) <= 1
        ensures Batched(Exec(Fresh(concurrency), es))
      {
        OneSlotBatches(Fresh(concurrency), es);
      }
    } else {
      var s := Fresh(concurrency);
      var es := OneMoreEvent(s, [], Start);
      es := OneMoreEvent(s, es, Answer(0, Got("j")));
      es := OneMoreEvent(s, es, Answer(0, Throws));
      assert "j" in Exec(s, es).active;
    }
  }
}

/** The worker object. What happens during each await is a parameter. */
module WorkerClass {
  import opened Ordering
  import opened WorkerModel

  /** During one `await queue.dequeue()`: the jobs whose processing ends, then the reply. */
  datatype Reaction = Reaction(settled: set<Id>, reply: Reply)

  /** No job is handed out while this worker still holds it. */
  predicate NotHeld(active: set<Id>, a: Reaction) {
    a.reply.Got? ==> a.reply.id !in active - a.settled
  }

  function HeldAfter(active: set<Id>, a: Reaction): set<Id> {
    active - a.settled + if a.reply.Got? then {a.reply.id} else {}
  }

  predicate AllNotHeld(active: set<Id>, awaits: seq<Reaction>)
    decreases |awaits|
  {
    awaits == [] || (NotHeld(active, awaits[0]) && AllNotHeld(HeldAfter(active, awaits[0]), awaits[1..]))
  }

  /** One turn of a poll: the settlements during the await, then its answer. */
  function Turn(s: State, k: nat, a: Reaction): State
    requires k < |s.loops| && s.loops[k].Awaiting? && s.loops[k].left > 0 && NotHeld(s.active, a)
  {
    var held := Next(s, Settle(a.settled * s.active));
    assert held.active == s.active - a.settled;
    Next(held, Answer(k, a.reply))
  }

  /** A loop waits only for jobs that are held. */
  predicate WaitsForHeld(s: State, k: nat) { k < |s.loops| && Awaited(s.loops[k]) <= s.active }

  lemma {:induction false} TurnKeeps(s: State, k: nat, a: Reaction)
    requires WaitsForHeld(s, k) && s.loops[k].Awaiting? && s.loops[k].left > 0 && NotHeld(s.active, a)
    ensures WaitsForHeld(Turn(s, k, a), k) && |Turn(s, k, a).loops| == |s.loops|
    ensures Turn(s, k, a).active == HeldAfter(s.active, a)
    ensures var batch := s.loops[k].batch - a.settled;
            Turn(s, k, a).loops[k] == match a.reply
              case Throws => Parked
              case Empty => Draining(batch)
              case Got(id) =>
                if s.loops[k].left > 1 then Awaiting(s.loops[k].left - 1, batch + {id}) else Draining(batch + {id})
  {
    var gone := a.settled * s.active;
    assert s.active - gone == s.active - a.settled;
    assert s.loops[k].batch - gone == s.loops[k].batch - a.settled;
  }

  /** A poll whose last jobs are settled sets its timer. */
  function Drained(s: State, k: nat, batch: set<Id>): State
    requires k < |s.loops| && s.loops[k] == Draining(batch) && batch <= s.active
  {
    assert batch - batch == {};
    Next(Next(s, Settle(batch)), Resume(k))
  }

  /** What a poll that has begun makes of the answers to its awaits. */
  function Filled(s: State, k: nat, awaits: seq<Reaction>): State
    requires WaitsForHeld(s, k)
    decreases |awaits|
  {
    match s.loops[k]
    case Awaiting(left, _) =>
      if left == 0 || awaits == [] || !NotHeld(s.active, awaits[0]) then s
      else
        TurnKeeps(s, k, awaits[0]);
        Filled(Turn(s, k, awaits[0]), k, awaits[1..])
    case Draining(batch) => Drained(s, k, batch)
    case _ => s
  }

  function Begun(s: State, k: nat, slots: nat): State
    requires k < |s.loops|
  {
    s.(loops := s.loops[k := Awaiting(slots, {})])
  }

  function Over(s: State, k: nat): State
    requires k < |s.loops|
  {
    s.(loops := s.loops[k := Ended])
  }

  function Again(s: State, k: nat): State
    requires k < |s.loops|
  {
    s.(loops := s.loops[k := Parked], timer := k)
  }

  /** A whole poll: nothing once stopped, only a new timer without a free slot. */
  function Polled(s: State, k: nat, awaits: seq<Reaction>): State
    requires k < |s.loops| && s.loops[k] == Parked
  {
    var slots := s.concurrency - |s.active|;
    if !s.running then Over(s, k)
    else if slots <= 0 then Again(s, k)
    else Filled(Begun(s, k, slots), k, awaits)
  }

  lemma {:induction false} FilledIsRun(s: State, k: nat, awaits: seq<Reaction>) returns (es: seq<Event>)
    requires WaitsForHeld(s, k)
    ensures Trace(s, es) && Exec(s, es) == Filled(s, k, awaits) && Starts(es) == 0
    decreases |awaits|
  {
    es := [];
    match s.loops[k] {
      case Awaiting(left, _) =>
        if left > 0 && awaits != [] && NotHeld(s.active, awaits[0]) {
          var e1, e2 := Settle(awaits[0].settled * s.active), Answer(k, awaits[0].reply);
          assert Next(s, e1).active == s.active - awaits[0].settled;
          TurnKeeps(s, k, awaits[0]);
          var rest := FilledIsRun(Turn(s, k, awaits[0]), k, awaits[1..]);
          es := RunCons(s, e1, e2, rest);
        }
      case Draining(batch) =>
        assert batch - batch == {};
        es := RunCons(s, Settle(batch), Resume(k), []);
      case _ =>
    }
  }

  /** A poll is a run of the event loop from its timer's event on, so all that holds of every run
      holds after it. */
  lemma {:induction false} PolledIsRun(s: State, k: nat, awaits: seq<Reaction>) returns (es: seq<Event>)
    requires k < |s.loops| && s.loops[k] == Parked
    ensures Trace(s, [Fire(k)] + es) && Exec(s, [Fire(k)] + es) == Polled(s, k, awaits) && Starts([Fire(k)] + es) == 0
  {
    es := [];
    if s.running && s.concurrency > |s.active| {
      es := FilledIsRun(Next(s, Fire(k)), k, awaits);
    }
    assert ([Fire(k)] + es)[1..] == es;
  }

  lemma {:induction false} FilledDrained(s: State, k: nat, awaits: seq<Reaction>)
    requires WaitsForHeld(s, k) && s.loops[k].Draining?
    ensures Filled(s, k, awaits) == Drained(s, k, s.loops[k].batch)
  {
  }

  lemma {:induction false} FilledTurn(s: State, k: nat, awaits: seq<Reaction>)
    requires WaitsForHeld(s, k) && s.loops[k].Awaiting? && s.loops[k].left > 0
    requires awaits != [] && NotHeld(s.active, awaits[0])
    ensures WaitsForHeld(Turn(s, k, awaits[0]), k)
    ensures Filled(s, k, awaits) == Filled(Turn(s, k, awaits[0]), k, awaits[1..])
    ensures awaits[0].reply == Throws ==> Filled(s, k, awaits) == Turn(s, k, awaits[0])
  {
    TurnKeeps(s, k, awaits[0]);
  }

  lemma {:induction false} RunCons(s: State, e1: Event, e2: Event, rest: seq<Event>) returns (es: seq<Event>)
    requires Legal(s, e1) && Legal(Next(s, e1), e2) && Trace(Next(Next(s, e1), e2), rest) && Starts(rest) == 0
    requires !e1.Start? && !e2.Start?
    ensures Trace(s, es) && Exec(s, es) == Exec(Next(Next(s, e1), e2), rest) && Starts(es) == 0
  {
    var tail := [e2] + rest;
    es := [e1] + tail;
    assert tail[1..] == rest && es[1..] == tail;
  }

  class Worker {
    const concurrency: nat
    var running: bool
    var activeJobs: set<Id>
    ghost var loops: seq<Phase>
    ghost var timer: int

    constructor (concurrency: nat)
      ensures View() == Fresh(concurrency)
    {
      this.concurrency := concurrency;
      running, activeJobs, loops, timer := false, {}, [], -1;
    }

    ghost function View(): State
      reads this
    {
      State(concurrency, running, activeJobs, loops, timer)
    }

    /** `start` with the first stretch of the poll it begins. */
    method Start()
      modifies this
      ensures View() == Next(old(View()), WorkerModel.Event.Start)
    {
      running := true;
      ghost var k := |loops|;
      loops := loops + [Parked];
      var slots := concurrency - |activeJobs|;
      if slots > 0 {
        loops := loops[k := Awaiting(slots, {})];
      } else {
        timer := k;
      }
    }

    /** One turn of the slot-filling loop: await a dequeue and start the job it returns. */
    method Take(ghost k: nat, a: Reaction)
      requires k < |loops| && loops[k].Awaiting? && loops[k].left > 0 && NotHeld(activeJobs, a)
      modifies this
      ensures View() == Turn(old(View()), k, a)
      ensures activeJobs == HeldAfter(old(activeJobs), a)
    {
      ghost var settled := a.settled * activeJobs;
      assert activeJobs - settled == activeJobs - a.settled;
      activeJobs, loops := activeJobs - a.settled, Settled(loops, settled);
      ghost var left, batch := loops[k].left, loops[k].batch;
      match a.reply
      case Throws => loops, timer := loops[k := Parked], k;
      case Empty => loops := loops[k := Draining(batch)];
      case Got(id) =>
        activeJobs := activeJobs + {id};
        loops := loops[k := if left > 1 then Awaiting(left - 1, batch + {id}) else Draining(batch + {id})];
    }

    /** `Promise.allSettled` of the jobs this poll still waits for, then the timer for the next poll. */
    method Drain(ghost k: nat, batch: set<Id>)
      requires k < |loops| && loops[k] == Draining(batch) && batch <= activeJobs
      modifies this
      ensures View() == Drained(old(View()), k, batch)
      ensures k < |loops| && loops[k] == Parked
    {
      assert batch - batch == {};
      activeJobs, loops := activeJobs - batch, Settled(loops, batch);
      loops, timer := loops[k := Parked], k;
    }

    /** The slot-filling loop; `threw` is whether a dequeue threw, `batch` what is left to wait for. */
    method FillSlots(ghost k: nat, slots: nat, awaits: seq<Reaction>) returns (threw: bool, batch: set<Id>)
      requires k < |loops| && loops[k] == Awaiting(slots, {}) && 0 < slots <= |awaits|
      requires AllNotHeld(activeJobs, awaits)
      modifies this
      ensures k < |loops| && |loops| == |old(loops)|
      ensures threw ==> loops[k] == Parked && View() == Filled(old(View()), k, awaits)
      ensures !threw ==> loops[k] == Draining(batch) && batch <= activeJobs
                         && Drained(View(), k, batch) == Filled(old(View()), k, awaits)
    {
      assert awaits[0..] == awaits;
      ghost var begun := View();
      var i := 0;
      threw, batch := false, {};
      while i < slots
        invariant 0 <= i <= slots <= |awaits| && k < |loops| && |loops| == |old(loops)|
        invariant loops[k] == if i < slots then Awaiting(slots - i, batch) else Draining(batch)
        invariant batch <= activeJobs && AllNotHeld(activeJobs, awaits[i..])
        invariant Filled(View(), k, awaits[i..]) == Filled(begun, k, awaits)
      {
        assert awaits[i..][0] == awaits[i] && awaits[i..][1..] == awaits[i + 1..];
        FilledTurn(View(), k, awaits[i..]);
        TurnKeeps(View(), k, awaits[i]);
        Take(k, awaits[i]);
        if awaits[i].reply == Throws {
          threw := true;
          return;
        }
        batch := batch - awaits[i].settled;
        if awaits[i].reply == Empty {
          FilledDrained(View(), k, awaits[i + 1..]);
          return;
        }
        batch, i := batch + {awaits[i].reply.id}, i + 1;
      }
      FilledDrained(View(), k, awaits[i..]);
    }

    /** A poll with slots to fill. */
    method Serve(ghost k: nat, slots: nat, awaits: seq<Reaction>)
      requires k < |loops| && loops[k] == Awaiting(slots, {}) && 0 < slots <= |awaits|
      requires AllNotHeld(activeJobs, awaits)
      modifies this
      ensures View() == Filled(old(View()), k, awaits)
      ensures k < |loops| && loops[k] == Parked
    {
      var threw, batch := FillSlots(k, slots, awaits);
      if !threw {
        Drain(k, batch);
      }
    }

    /** A poll with slots to fill. */
    method BeginServe(ghost k: nat, slots: nat, awaits: seq<Reaction>)
      requires k < |loops| && loops[k] == Parked && 0 < slots <= |awaits| && AllNotHeld(activeJobs, awaits)
      modifies this
      ensures View() == Filled(Begun(old(View()), k, slots), k, awaits)
    {
      loops := loops[k := Awaiting(slots, {})];
      Serve(k, slots, awaits);
    }

    /** `_poll`, from its timer to the timer it sets next. */
    method Poll(ghost k: nat, awaits: seq<Reaction>)
      requires k < |loops| && loops[k] == Parked
      requires |activeJobs| + |awaits| >= concurrency && AllNotHeld(activeJobs, awaits)
      modifies this
      ensures !old(running) ==> View() == Over(old(View()), k)
      ensures old(running) && concurrency <= old(|activeJobs|) ==> View() == Again(old(View()), k)
      ensures old(running) && concurrency > old(|activeJobs|) ==>
                View() == Filled(Begun(old(View()), k, concurrency - old(|activeJobs|)), k, awaits)
    {
      if !running {
        loops := loops[k := Ended];
        return;
      }
      var slots := concurrency - |activeJobs|;
      if slots > 0 {
        BeginServe(k, slots, awaits);
      } else {
        loops, timer := loops[k := Parked], k;
      }
    }

    method Stop()
      modifies this
      ensures View() == Next(old(View()), WorkerModel.Event.Stop)
      ensures !running && activeJobs == old(activeJobs)
    {
      running := false;
      if 0 <= timer < |loops| && loops[timer] == Parked {
        loops := loops[timer := Ended];
      }
    }
  }
}
