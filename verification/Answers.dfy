/** What a watch answers: every return of every schedule, case by case, in terms of
    the run alone, and the watch "from now on" in terms of the committed history
    (src/watch/watch_hub.cpp). */
module Answers {
  import opened Records
  import opened Mvcc
  import opened History
  import opened Hub
  import opened WatchNode
  import opened WatchTheorems

  // ------------------------------------------------ what reached the buffer

  /** The step pushes a command's events to this watcher's buffer. */
  ghost predicate Pushes(n: Node, st: Step, id: nat) {
    st.PushNext? && n.applier.Pushing? && n.applier.todo != [] && n.applier.todo[0] == id && At(n, id)
  }

  /** All events pushed to the watcher since it registered, in order. */
  ghost function Pushed(start: Node, steps: seq<Step>, id: nat): seq<WatchEvent>
    requires Runs(start, steps)
  {
    if steps == [] then []
    else
      var pre, st := steps[..|steps| - 1], steps[|steps| - 1];
      if st == Register(id) then []
      else Pushed(start, pre, id) + if Pushes(Exec(start, pre), st, id) then Exec(start, pre).applier.es else []
  }

  /** Registered and not yet answering. */
  predicate Holding(pc: Pc) { InHub(pc) || pc.Draining? }

  lemma HoldingBefore(n: Node, st: Step, id: nat)
    requires Enabled(n, st) && At(Next(n, st), id) && Holding(Next(n, st).watchers[id].pc) && st != Register(id)
    ensures At(n, id) && Holding(n.watchers[id].pc)
  {
  }

  lemma BufferStays(n: Node, st: Step, id: nat)
    requires Enabled(n, st) && At(n, id) && At(Next(n, st), id) && id < n.nextId && st != Register(id)
    ensures var b := n.watchers[id].buffer;
            Next(n, st).watchers[id].buffer ==
              if Pushes(n, st, id) then PushAll(b, n.watchers[id].filter, n.applier.es, n.limit) else b
    ensures Next(n, st).limit == n.limit
  {
  }

  lemma NothingPushed(filter: string, limit: nat)
    ensures Takes(Buffer([], false), Buffer([], false), filter, limit, [])
  {
  }

  lemma BufferStep(n: Node, st: Step, id: nat, before: seq<WatchEvent>)
    requires Enabled(n, st) && At(n, id) && At(Next(n, st), id) && id < n.nextId && st != Register(id)
    requires Takes(Buffer([], false), n.watchers[id].buffer, n.watchers[id].filter, n.limit, before)
    ensures var w := Next(n, st).watchers[id];
            Takes(Buffer([], false), w.buffer, w.filter, n.limit,
                  before + if Pushes(n, st, id) then n.applier.es else [])
  {
    BufferStays(n, st, id);
    OneRequest(n, st, id);
    if Pushes(n, st, id) {
      TakesMore(Buffer([], false), n.watchers[id].buffer, n.watchers[id].filter, n.limit, before, n.applier.es);
    } else {
      assert before + [] == before;
    }
  }

  /** A registered watcher's buffer holds the matching part of what was pushed to it,
      or has overflowed because that does not fit. */
  lemma {:induction false} BufferOrigin(limit: nat, steps: seq<Step>, n: Node, id: nat, pushed: seq<WatchEvent>)
    requires Reached(limit, steps, n) && At(n, id) && Holding(n.watchers[id].pc)
    requires pushed == Pushed(NewNode(limit), steps, id)
    ensures Takes(Buffer([], false), n.watchers[id].buffer, n.watchers[id].filter, n.limit, pushed)
  {
    var pre, st := steps[..|steps| - 1], steps[|steps| - 1];
    var m := Exec(NewNode(limit), pre);
    if st == Register(id) {
      NothingPushed(n.watchers[id].filter, n.limit);
    } else {
      HoldingBefore(m, st, id);
      IdGiven(limit, pre, m, id);
      BufferOrigin(limit, pre, m, id, Pushed(NewNode(limit), pre, id));
      BufferStep(m, st, id, Pushed(NewNode(limit), pre, id));
      StepGrows(m, st);
    }
  }

  // ------------------------------------------------------ the deciding step

  predicate Decided(pc: Pc, out: Outcome) { pc == Leaving(out) || pc == Closing(out) }

  /** The step that settles the answer, and the state before it. */
  ghost predicate Decides(at: Node, st: Step, id: nat, w: Watcher, out: Outcome) {
    && Enabled(at, st) && At(at, id) && At(Next(at, st), id)
    && !at.watchers[id].pc.Leaving? && !at.watchers[id].pc.Closing?
    && Decided(Next(at, st).watchers[id].pc, out)
    && at.watchers[id].filter == w.filter && at.watchers[id].from == w.from
  }

  lemma DecidedBefore(n: Node, st: Step, id: nat, out: Outcome)
    requires Enabled(n, st) && At(Next(n, st), id) && Decided(Next(n, st).watchers[id].pc, out)
    ensures At(n, id)
    ensures n.watchers[id].pc.Leaving? || n.watchers[id].pc.Closing? ==> Decided(n.watchers[id].pc, out)
  {
  }

  lemma {:induction false} DecisionOrigin(limit: nat, steps: seq<Step>, n: Node, id: nat, out: Outcome)
    returns (k: nat, at: Node)
    requires Reached(limit, steps, n) && At(n, id) && Decided(n.watchers[id].pc, out)
    ensures k < |steps| && Reached(limit, steps[..k], at) && Decides(at, steps[k], id, n.watchers[id], out)
    ensures at.stream <= n.stream
  {
    var pre, st := steps[..|steps| - 1], steps[|steps| - 1];
    var m := Exec(NewNode(limit), pre);
    DecidedBefore(m, st, id, out);
    IdGiven(limit, pre, m, id);
    OneRequest(m, st, id);
    StepGrows(m, st);
    if m.watchers[id].pc.Leaving? || m.watchers[id].pc.Closing? {
      k, at := DecisionOrigin(limit, pre, m, id, out);
      assert steps[..k] == pre[..k];
    } else {
      k, at := |pre|, m;
    }
  }

  // -------------------------------------------------------- every answer

  /** What a pinned replay finds, in terms of the committed history. */
  lemma ReplayIs(h: seq<WatchEvent>, c: nat, limit: nat, x: Watcher)
    requires x.pc.Pinned? && PcOK(h, c, x) && limit > 0
    ensures var all := Select(h[x.from..x.pc.cur], x.filter);
            Replay(x.pc.pin, c, x.from, x.pc.cur, x.filter, limit) ==
              if x.from < c then (COMPACTED, []) else (OK, if |all| <= limit then all else all[..limit])
  {
    if x.from >= c { EventsInSelect(x.pc.pin, h, x.from, x.pc.cur, x.filter); }
  }

  lemma ReplayAnswer(at: Node, x: Watcher, w: Watcher, h: seq<WatchEvent>, cur: nat, most: nat, revision: nat, a: Answer)
    requires x.pc.Pinned? && PcOK(h, at.store.compactRev, x) && w.from == x.from && w.filter == x.filter
    requires w.pc.Closing? && Decided(ReplayOutcome(at, x), w.pc.out) && cur == x.pc.cur
    requires at.limit == most > 0 && a == AnswerOf(w.pc.out, revision)
    ensures w.from <= cur <= |h|
    ensures var all := Select(h[w.from..cur], w.filter);
            var es := if |all| <= most then all else all[..most];
            if w.from < at.store.compactRev then a == Answer(COMPACTED, [], revision)
            else es != [] && a == Answer(OK, es, es[|es| - 1].revision)
  {
    ReplayIs(h, at.store.compactRev, at.limit, x);
  }

  lemma BufferAnswer(x: Watcher, w: Watcher, most: nat, pushed: seq<WatchEvent>, revision: nat, a: Answer)
    requires x.pc.Draining? && Takes(Buffer([], false), x.buffer, w.filter, most, pushed)
    requires w.pc == Closing(BufferOutcome(x)) && a == AnswerOf(w.pc.out, revision)
    ensures var es := Select(pushed, w.filter);
            a == if |es| > most then Answer(INTERNAL, [], revision)
                 else if es == [] then Answer(OK, [], revision)
                 else Answer(OK, es, es[|es| - 1].revision)
  {
    assert [] + Select(pushed, w.filter) == Select(pushed, w.filter);
  }

  /** Only a watcher's own steps settle its answer. */
  lemma DecidingStep(at: Node, st: Step, id: nat, x: Watcher, out: Outcome)
    requires Decides(at, st, id, x, out) && x == at.watchers[id] && id < at.nextId
    ensures st in {CheckCompacted(id), GiveUp(id), Cancel(id), FinishReplay(id), ReadBuffer(id)}
    ensures st == CheckCompacted(id) ==> x.from < at.store.compactRev && out == Compacted
    ensures st == GiveUp(id) ==> x.pc.CatchingUp? && out == Lagging
    ensures st == Cancel(id) ==> x.pc.CatchingUp? && out == Canceled
    ensures st == FinishReplay(id) ==> x.pc.Pinned? && Decided(ReplayOutcome(at, x), out)
    ensures st == ReadBuffer(id) ==> x.pc.Draining? && out == BufferOutcome(x)
  {
  }

  lemma WatcherFacts(at: Node, id: nat, x: Watcher)
    requires NodeInv(at) && At(at, id) && x == at.watchers[id]
    ensures id < at.nextId && at.limit > 0 && PcOK(at.stream, at.store.compactRev, x)
  {
  }

  /** The deciding step st of an answering watcher w, and what it found. */
  ghost predicate Settles(at: Node, st: Step, id: nat, x: Watcher, w: Watcher)
    requires w.pc.Closing?
  {
    && st in {CheckCompacted(id), GiveUp(id), Cancel(id), FinishReplay(id), ReadBuffer(id)}
    && x.filter == w.filter && x.from == w.from && PcOK(at.stream, at.store.compactRev, x)
    && (st == CheckCompacted(id) ==> x.pc.Checking? && x.from < at.store.compactRev && w.pc.out == Compacted)
    && (st == GiveUp(id) ==> x.pc.CatchingUp? && w.pc.out == Lagging)
    && (st == Cancel(id) ==> x.pc.CatchingUp? && w.pc.out == Canceled)
    && (st == FinishReplay(id) ==> x.pc.Pinned? && Decided(ReplayOutcome(at, x), w.pc.out))
    && (st == ReadBuffer(id) ==> x.pc.Draining? && w.pc.out == BufferOutcome(x))
  }

  lemma SettledBy(limit: nat, steps: seq<Step>, n: Node, id: nat, w: Watcher) returns (k: nat, at: Node, x: Watcher)
    requires Reached(limit, steps, n) && At(n, id) && w == n.watchers[id] && w.pc.Closing?
    ensures k < |steps| && Reached(limit, steps[..k], at) && At(at, id) && x == at.watchers[id]
    ensures Settles(at, steps[k], id, x, w) && at.stream <= n.stream
    ensures at.limit == if limit > 0 then limit else 1024
    ensures steps[k] == ReadBuffer(id) ==>
              Takes(Buffer([], false), x.buffer, w.filter, at.limit, Pushed(NewNode(limit), steps[..k], id))
  {
    k, at := DecisionOrigin(limit, steps, n, id, w.pc.out);
    x := at.watchers[id];
    ReachableInv(limit, steps[..k], at);
    WatcherFacts(at, id, x);
    DecidingStep(at, steps[k], id, x, w.pc.out);
    RunGrows(NewNode(limit), steps[..k]);
    if steps[k] == ReadBuffer(id) {
      BufferOrigin(limit, steps[..k], at, id, Pushed(NewNode(limit), steps[..k], id));
    }
  }

  /** The answer of a watcher whose deciding step st found what Settles says. */
  lemma SettledAnswer(at: Node, st: Step, id: nat, x: Watcher, w: Watcher, cur: nat, most: nat,
                      pushed: seq<WatchEvent>, revision: nat, a: Answer)
    requires w.pc.Closing? && Settles(at, st, id, x, w) && at.limit == most > 0 && a == AnswerOf(w.pc.out, revision)
    requires st == ReadBuffer(id) ==> Takes(Buffer([], false), x.buffer, w.filter, most, pushed)
    requires x.pc.Pinned? ==> cur == x.pc.cur
    ensures w.from == 0 ==> st == ReadBuffer(id)
    ensures st == CheckCompacted(id) ==> w.from < at.store.compactRev && a == Answer(COMPACTED, [], revision)
    ensures st == GiveUp(id) ==> a == Answer(INTERNAL, [], revision)
    ensures st == Cancel(id) ==> a == Answer(OK, [], 0)
    ensures st == FinishReplay(id) ==>
              && x.pc.Pinned? && cur == x.pc.cur && w.from <= cur <= |at.stream|
              && var all := Select(at.stream[w.from..cur], w.filter);
                 var es := if |all| <= most then all else all[..most];
                 if w.from < at.store.compactRev then a == Answer(COMPACTED, [], revision)
                 else es != [] && a == Answer(OK, es, es[|es| - 1].revision)
    ensures st == ReadBuffer(id) ==>
              var es := Select(pushed, w.filter);
              a == if |es| > most then Answer(INTERNAL, [], revision)
                   else if es == [] then Answer(OK, [], revision)
                   else Answer(OK, es, es[|es| - 1].revision)
  {
    if st == FinishReplay(id) { ReplayAnswer(at, x, w, at.stream, cur, most, revision, a); }
    if st == ReadBuffer(id) { BufferAnswer(x, w, most, pushed, revision, a); }
  }

  /** Every answer of every schedule: it was settled by one step of its watcher.  A
      refusal saw compact_rev above `from`; a catch-up that was given up or canceled
      returns no events; a replay returns the first `most` matching events above
      `from`; a waiter returns all matching events pushed to it since it registered,
      or an error if they are more than `most`. */
  lemma AnswerExactly(limit: nat, steps: seq<Step>, n: Node, id: nat, w: Watcher, most: nat, a: Answer)
    returns (k: nat, at: Node, cur: nat)
    requires Reached(limit, steps, n) && Enabled(n, Return(id)) && w == n.watchers[id]
    requires most == (if limit > 0 then limit else 1024) && a == AnswerOf(w.pc.out, n.store.revision)
    ensures k < |steps| && Reached(limit, steps[..k], at) && At(at, id) && at.stream <= n.stream
    ensures steps[k] in {CheckCompacted(id), GiveUp(id), Cancel(id), FinishReplay(id), ReadBuffer(id)}
    ensures w.from == 0 ==> steps[k] == ReadBuffer(id)
    ensures steps[k] == CheckCompacted(id) ==>
              w.from < at.store.compactRev && a == Answer(COMPACTED, [], n.store.revision)
    ensures steps[k] == GiveUp(id) ==> a == Answer(INTERNAL, [], n.store.revision)
    ensures steps[k] == Cancel(id) ==> a == Answer(OK, [], 0)
    ensures steps[k] == FinishReplay(id) ==>
              && at.watchers[id].pc.Pinned? && cur == at.watchers[id].pc.cur && w.from <= cur <= |at.stream|
              && var all := Select(at.stream[w.from..cur], w.filter);
                 var es := if |all| <= most then all else all[..most];
                 if w.from < at.store.compactRev then a == Answer(COMPACTED, [], n.store.revision)
                 else es != [] && a == Answer(OK, es, es[|es| - 1].revision)
    ensures steps[k] == ReadBuffer(id) ==>
              var es := Select(Pushed(NewNode(limit), steps[..k], id), w.filter);
              a == if |es| > most then Answer(INTERNAL, [], n.store.revision)
                   else if es == [] then Answer(OK, [], n.store.revision)
                   else Answer(OK, es, es[|es| - 1].revision)
  {
    var x;
    k, at, x := SettledBy(limit, steps, n, id, w);
    cur := if x.pc.Pinned? then x.pc.cur else 0;
    SettledAnswer(at, steps[k], id, x, w, cur, most, Pushed(NewNode(limit), steps[..k], id), n.store.revision, a);
  }

  lemma NewRequest(n: Node, st: Step, id: nat)
    requires Enabled(n, st) && !At(n, id) && At(Next(n, st), id)
    ensures st.Start? && id == n.nextId
    ensures var w := Next(n, st).watchers[id];
            w.filter == st.filter && w.from == if st.request > 0 then st.request else 0
  {
  }

  /** A watcher serves the request it was started with; a negative revision counts as 0. */
  lemma {:induction false} RequestOrigin(limit: nat, steps: seq<Step>, n: Node, id: nat) returns (k: nat)
    requires Reached(limit, steps, n) && At(n, id)
    ensures k < |steps| && steps[k].Start? && steps[k].filter == n.watchers[id].filter
    ensures n.watchers[id].from == if steps[k].request > 0 then steps[k].request else 0
  {
    var pre, st := steps[..|steps| - 1], steps[|steps| - 1];
    var m := Exec(NewNode(limit), pre);
    if At(m, id) {
      k := RequestOrigin(limit, pre, m, id);
      IdGiven(limit, pre, m, id);
      OneRequest(m, st, id);
    } else {
      NewRequest(m, st, id);
      k := |pre|;
    }
  }

  // ----------------------------------------------------------- compacted

  lemma ClosedStep(n: Node, st: Step, id: nat, out: Outcome)
    requires Enabled(n, st) && At(n, id) && id < n.nextId && n.watchers[id].pc == Closing(out)
    ensures At(Next(n, st), id) ==> Next(n, st).watchers[id].pc == Closing(out)
    ensures !At(Next(n, st), id) ==> st == Return(id)
    ensures id < Next(n, st).nextId
  {
  }

  lemma GoneStep(n: Node, st: Step, id: nat)
    requires Enabled(n, st) && !At(n, id) && id < n.nextId
    ensures !At(Next(n, st), id) && id < Next(n, st).nextId
  {
  }

  /** A settled answer stays until it is returned. */
  lemma {:induction false} ClosedStays(limit: nat, steps: seq<Step>, j: nat, id: nat, out: Outcome)
    requires Runs(NewNode(limit), steps) && j <= |steps| && Runs(NewNode(limit), steps[..j])
    requires var m := Exec(NewNode(limit), steps[..j]); At(m, id) && m.watchers[id].pc == Closing(out)
    ensures var n := Exec(NewNode(limit), steps);
            id < n.nextId && (At(n, id) ==> n.watchers[id].pc == Closing(out))
  {
    if j == |steps| {
      assert steps[..j] == steps;
      IdGiven(limit, steps, Exec(NewNode(limit), steps), id);
    } else {
      var pre := steps[..|steps| - 1];
      assert steps[..j] == pre[..j];
      ClosedStays(limit, pre, j, id, out);
      var m, st := Exec(NewNode(limit), pre), steps[|steps| - 1];
      if At(m, id) { ClosedStep(m, st, id, out); } else { GoneStep(m, st, id); }
    }
  }

  lemma RefusedNow(at: Node, id: nat)
    requires Enabled(at, CheckCompacted(id))
    ensures var n := Next(at, CheckCompacted(id));
            At(n, id) && (at.watchers[id].from < at.store.compactRev <==> n.watchers[id].pc == Closing(Compacted))
  {
  }

  /** A watcher whose check finds its `from` compacted answers COMPACTED, whatever
      else happens before it returns. */
  lemma CheckRefuses(limit: nat, steps: seq<Step>, n: Node, id: nat, k: nat, at: Node)
    requires Reached(limit, steps, n) && Enabled(n, Return(id))
    requires k < |steps| && Reached(limit, steps[..k], at) && steps[k] == CheckCompacted(id) && At(at, id)
    requires at.watchers[id].from < at.store.compactRev
    ensures AnswerOf(n.watchers[id].pc.out, n.store.revision) == Answer(COMPACTED, [], n.store.revision)
  {
    RunsPrefix(NewNode(limit), steps, k + 1);
    assert steps[..k + 1][..k] == steps[..k];
    RefusedNow(at, id);
    ClosedStays(limit, steps, k + 1, id, Compacted);
  }

  lemma {:induction false} RunsPrefix(start: Node, steps: seq<Step>, j: nat)
    requires Runs(start, steps) && j <= |steps|
    ensures Runs(start, steps[..j])
  {
    if j == |steps| {
      assert steps[..j] == steps;
    } else {
      RunsPrefix(start, steps[..|steps| - 1], j);
      assert steps[..|steps| - 1][..j] == steps[..j];
    }
  }
}
