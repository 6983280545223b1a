/** The two levels joined over whole runs: whatever queue operations do one at a time, clients that
    are never interrupted do command by command, with the same Redis and the same history. */
module QueueTraces {
  import opened Ordering
  import opened QueueModel
  import opened QueueCommands
  import opened QueueSolo
  import Runs = QueueRuns

  ghost predicate HeldBySomeone(w: World, id: Id) {
    exists t :: PcOf(w, t) == Holding(id)
  }

  /** Between operations: the same store and history, and each active job with a thread that holds it. */
  ghost predicate Matches(w: World, r: Runs.Run) {
    && w.store == r.store && w.taken == r.dequeues && Reversed(w.done) == r.finished
    && w.clock <= r.clock && SeenBefore(w)
    && (forall t :: PcOf(w, t).Idle? || PcOf(w, t).Holding?)
    && (forall id | id in w.store.active :: HeldBySomeone(w, id))
  }

  function Reversed(ids: seq<Id>): seq<Id> {
    if ids == [] then [] else [ids[|ids| - 1]] + Reversed(ids[..|ids| - 1])
  }

  lemma {:induction false} ReversedSnoc(ids: seq<Id>, id: Id)
    ensures Reversed(ids + [id]) == [id] + Reversed(ids)
  {
    assert (ids + [id])[..|ids|] == ids;
  }

  lemma {:induction false} FreeThread(pcs: map<Thread, Pc>) returns (t: Thread)
    ensures t !in pcs
  {
    t := FreeAbove(pcs.Keys);
  }

  lemma {:induction false} FreeAbove(used: set<Thread>) returns (t: Thread)
    ensures forall u | u in used :: u < t
    decreases used
  {
    t := 0;
    if used != {} {
      var u :| u in used;
      var below := FreeAbove(used - {u});
      t := if u < below then below else u + 1;
      assert used == used - {u} + {u};
    }
  }

  lemma {:induction false} Listing(ids: set<Id>) returns (s: seq<Id>)
    ensures forall id :: id in s <==> id in ids
    ensures forall i, j | 0 <= i < j < |s| :: s[i] != s[j]
    decreases ids
  {
    s := [];
    if ids != {} {
      var id :| id in ids;
      var rest := Listing(ids - {id});
      s := [id] + rest;
      forall i, j | 0 <= i < j < |s| ensures s[i] != s[j] {
        assert s[j] == rest[j - 1] && rest[j - 1] in rest;
      }
    }
  }

  /** After an operation of thread `t` the others are where they were. */
  lemma {:induction false} StillHeld(w: World, cs: seq<Command>, w': World, t: Thread)
    requires Solo(w, cs, w', t) && (PcOf(w', t).Idle? || PcOf(w', t).Holding?)
    requires forall u :: PcOf(w, u).Idle? || PcOf(w, u).Holding?
    requires forall id | id in w.store.active :: HeldBySomeone(w, id)
    ensures forall u :: PcOf(w', u).Idle? || PcOf(w', u).Holding?
    ensures forall id | id in w.store.active && PcOf(w, t) != Holding(id) :: HeldBySomeone(w', id)
  {
    forall u ensures u != t ==> PcOf(w', u) == PcOf(w, u) {
      if u != t { SoloKeepsOthers(w, cs, w', t, u); }
    }
    forall id | id in w.store.active && PcOf(w, t) != Holding(id) ensures HeldBySomeone(w', id) {
      var u :| PcOf(w, u) == Holding(id);
      assert PcOf(w', u) == Holding(id);
    }
  }

  lemma {:induction false} MatchAdd(w: World, r: Runs.Run, e: Runs.Event) returns (cs: seq<Command>, w': World)
    requires Matches(w, r) && Runs.Legal(r, e) && e.AddEvent?
    ensures Trace(w, cs) && Exec(w, cs) == w' && Matches(w', Runs.Next(r, e))
  {
    var t := FreeThread(w.pcs);
    cs, w' := SoloAdd(w, t, e.id, NewJob(e.kind, e.data, e.options, e.defaults, e.now), e.now);
    StillHeld(w, cs, w', t);
  }

  lemma {:induction false} MatchDequeue(w: World, r: Runs.Run, e: Runs.Event) returns (cs: seq<Command>, w': World)
    requires Matches(w, r) && Runs.Legal(r, e) && e.DequeueEvent?
    ensures Trace(w, cs) && Exec(w, cs) == w' && Matches(w', Runs.Next(r, e))
  {
    var t := FreeThread(w.pcs);
    var due := Listing(Due(w.store.delayed, e.tPromote));
    cs, w' := SoloDequeue(w, t, due, e.tPromote, e.tStart);
    StillHeld(w, cs, w', t);
    forall id | id in w'.store.active ensures HeldBySomeone(w', id) {
      if id !in w.store.active {
        assert PcOf(w', t) == Holding(id);
      }
    }
  }

  lemma {:induction false} MatchComplete(w: World, r: Runs.Run, e: Runs.Event) returns (cs: seq<Command>, w': World)
    requires Matches(w, r) && Runs.Legal(r, e) && e.CompleteEvent?
    ensures Trace(w, cs) && Exec(w, cs) == w' && Matches(w', Runs.Next(r, e))
  {
    assert HeldBySomeone(w, e.id);
    var t :| PcOf(w, t) == Holding(e.id);
    cs, w' := SoloComplete(w, t, e.id, e.result, e.now);
    StillHeld(w, cs, w', t);
    ReversedSnoc(w.done, e.id);
  }

  lemma {:induction false} MatchFail(w: World, r: Runs.Run, e: Runs.Event) returns (cs: seq<Command>, w': World)
    requires Matches(w, r) && Runs.Legal(r, e) && e.FailEvent?
    ensures Trace(w, cs) && Exec(w, cs) == w' && Matches(w', Runs.Next(r, e))
  {
    assert HeldBySomeone(w, e.id);
    var t :| PcOf(w, t) == Holding(e.id);
    cs, w' := SoloFail(w, t, e.id, e.error, e.tLog, e.tMove);
    StillHeld(w, cs, w', t);
    assert w'.store.active == w.store.active - {e.id};
  }

  lemma {:induction false} MatchRetry(w: World, r: Runs.Run, e: Runs.Event) returns (cs: seq<Command>, w': World)
    requires Matches(w, r) && e.RetryEvent?
    ensures Trace(w, cs) && Exec(w, cs) == w' && Matches(w', Runs.Next(r, e))
  {
    var t := FreeThread(w.pcs);
    cs, w' := SoloRetry(w, t, e.id, w.clock);
    StillHeld(w, cs, w', t);
  }

  lemma {:induction false} MatchFrom(w: World, r: Runs.Run, events: seq<Runs.Event>) returns (cs: seq<Command>, w': World)
    requires Matches(w, r) && Runs.LegalTrace(r, events)
    ensures Trace(w, cs) && Exec(w, cs) == w' && Matches(w', Runs.Exec(r, events))
    decreases |events|
  {
    if events == [] {
      cs, w' := [], w;
    } else {
      var e := events[0];
      var cs0, w0;
      match e {
        case AddEvent(_, _, _, _, _, _) => cs0, w0 := MatchAdd(w, r, e);
        case DequeueEvent(_, _) => cs0, w0 := MatchDequeue(w, r, e);
        case CompleteEvent(_, _, _) => cs0, w0 := MatchComplete(w, r, e);
        case FailEvent(_, _, _, _) => cs0, w0 := MatchFail(w, r, e);
        case RetryEvent(_) => cs0, w0 := MatchRetry(w, r, e);
      }
      var rest;
      rest, w' := MatchFrom(w0, Runs.Next(r, e), events[1..]);
      Joined(w, cs0, w0, rest);
      cs := cs0 + rest;
    }
  }

  /** Every run of whole operations is a run of commands, with the same store, the same completions
      and the same dequeue times of every job. */
  lemma {:induction false} RunsAreTraces(events: seq<Runs.Event>) returns (cs: seq<Command>)
    requires Runs.LegalTrace(Runs.START, events)
    ensures Trace(START, cs)
    ensures var w, r := Exec(START, cs), Runs.Exec(Runs.START, events);
            w.store == r.store && Reversed(w.done) == r.finished && forall id :: Times(w, id) == Runs.Times(r, id)
  {
    var w;
    cs, w := MatchFrom(START, Runs.START, events);
  }
}
