/** What one client's promotion achieves however other clients' commands fall between its own. */
module QueuePromotion {
  import opened Ordering
  import opened QueueModel
  import opened QueueCommands

  ghost predicate SometimeNotDelayed(w: World, cs: seq<Command>, id: Id)
    requires Trace(w, cs)
    decreases |cs|
  {
    id !in w.store.delayed || (cs != [] && SometimeNotDelayed(Step(w, cs[0]), cs[1..], id))
  }

  ghost predicate SometimeWaitsAtZero(w: World, cs: seq<Command>, id: Id)
    requires Trace(w, cs)
    decreases |cs|
  {
    (id in w.store.waiting && w.store.waiting[id] == 0)
    || (cs != [] && SometimeWaitsAtZero(Step(w, cs[0]), cs[1..], id))
  }

  /** The thread still has to move `id`: to remove it, or at least to insert it. */
  predicate StillToMove(pc: Pc, id: Id) { pc.Promoting? && id in pc.due }

  predicate StillToRemove(pc: Pc, id: Id) {
    pc.Promoting? && pc.due != [] && id in if pc.removed then pc.due[1..] else pc.due
  }

  lemma {:induction false} OwnMove(w: World, c: Command, id: Id)
    requires Enabled(w, c) && StillToMove(PcOf(w, c.thread), id)
    ensures var w' := Step(w, c);
            && (StillToMove(PcOf(w', c.thread), id) || (id in w'.store.waiting && w'.store.waiting[id] == 0))
            && (StillToRemove(PcOf(w, c.thread), id) ==>
                  StillToRemove(PcOf(w', c.thread), id) || id !in w'.store.delayed)
  {
    var due := PcOf(w, c.thread).due;
    assert forall i | 1 <= i < |due| :: due[i] == due[1..][i - 1];
  }

  lemma {:induction false} InsertsAll(w: World, cs: seq<Command>, t: Thread, id: Id)
    requires Trace(w, cs) && StillToMove(PcOf(w, t), id) && !PcOf(Exec(w, cs), t).Promoting?
    ensures SometimeWaitsAtZero(w, cs, id)
    decreases |cs|
  {
    var w' := Step(w, cs[0]);
    if cs[0].thread == t {
      OwnMove(w, cs[0], id);
    }
    if StillToMove(PcOf(w', t), id) {
      InsertsAll(w', cs[1..], t, id);
    }
  }

  lemma {:induction false} RemovesAll(w: World, cs: seq<Command>, t: Thread, id: Id)
    requires Trace(w, cs) && StillToRemove(PcOf(w, t), id) && !PcOf(Exec(w, cs), t).Promoting?
    ensures SometimeNotDelayed(w, cs, id)
    decreases |cs|
  {
    var w' := Step(w, cs[0]);
    if cs[0].thread == t {
      assert StillToMove(PcOf(w, t), id) by {
        var due := PcOf(w, t).due;
        assert forall i | 1 <= i < |due| :: due[i] == due[1..][i - 1];
      }
      OwnMove(w, cs[0], id);
    }
    if StillToRemove(PcOf(w', t), id) {
      RemovesAll(w', cs[1..], t, id);
    }
  }

  /** Every job that is due when a client scans the delayed set has left that set and has been queued in
      waiting at score 0 by the time the client takes its job, whatever else happened meanwhile. */
  lemma {:induction false} EveryDueJobIsPromoted(w: World, scan: Command, cs: seq<Command>, id: Id)
    requires Enabled(w, scan) && scan.choice.BeginDequeue? && Trace(Step(w, scan), cs)
    requires !PcOf(Exec(Step(w, scan), cs), scan.thread).Promoting?
    requires id in w.store.delayed && w.store.delayed[id] <= scan.read
    ensures SometimeNotDelayed(Step(w, scan), cs, id) && SometimeWaitsAtZero(Step(w, scan), cs, id)
  {
    assert id in Due(w.store.delayed, scan.read);
    assert scan.choice.due != [];
    RemovesAll(Step(w, scan), cs, scan.thread, id);
    InsertsAll(Step(w, scan), cs, scan.thread, id);
  }
}
