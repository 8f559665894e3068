/** What the watch protocol guarantees over whole runs of one node, and where its
    documented promises stop (src/watch/watch_hub.cpp, src/raft/node.h). */
module WatchTheorems {
  import opened Records
  import opened Mvcc
  import opened History
  import opened Hub
  import opened WatchNode
  import opened WatchSteps

  // ----------------------------------------------------------------- runs

  /** A schedule that can be executed from n, and where it leads. */
  ghost predicate Runs(n: Node, steps: seq<Step>)
    decreases |steps|, 0
  {
    steps == [] || (Runs(n, steps[..|steps| - 1]) &&
                    Enabled(Exec(n, steps[..|steps| - 1]), steps[|steps| - 1]))
  }

  ghost function Exec(n: Node, steps: seq<Step>): Node
    requires Runs(n, steps)
    decreases |steps|, 1
  {
    if steps == [] then n else Next(Exec(n, steps[..|steps| - 1]), steps[|steps| - 1])
  }

  ghost predicate Leads(start: Node, steps: seq<Step>, n: Node) {
    Runs(start, steps) && n == Exec(start, steps)
  }

  /** n is where some schedule leads from a fresh node. */
  ghost predicate Reached(limit: nat, steps: seq<Step>, n: Node) {
    Leads(NewNode(limit), steps, n)
  }

  lemma NewNodeInv(limit: nat)
    ensures NodeInv(NewNode(limit))
  {
  }

  lemma {:induction false} RunKeepsInv(n: Node, steps: seq<Step>)
    requires NodeInv(n) && Runs(n, steps)
    ensures NodeInv(Exec(n, steps))
  {
    if steps == [] {
    } else {
      RunKeepsInv(n, steps[..|steps| - 1]);
      StepKeeps(Exec(n, steps[..|steps| - 1]), steps[|steps| - 1]);
    }
  }

  /** Every reachable state satisfies the invariant, whatever commands were applied,
      accepted or refused, and whichever writes failed. */
  lemma ReachableInv(limit: nat, steps: seq<Step>, n: Node)
    requires Reached(limit, steps, n)
    ensures NodeInv(n)
  {
    NewNodeInv(limit);
    RunKeepsInv(NewNode(limit), steps);
  }

  // --------------------------------------------- the identity of a watcher

  lemma StillThere(n: Node, st: Step, id: nat)
    requires Enabled(n, st) && At(Next(n, st), id) && id < n.nextId
    ensures At(n, id)
  {
  }

  lemma OneRequest(n: Node, st: Step, id: nat)
    requires Enabled(n, st) && At(n, id) && At(Next(n, st), id) && id < n.nextId
    ensures Next(n, st).watchers[id].filter == n.watchers[id].filter
    ensures Next(n, st).watchers[id].from == n.watchers[id].from
  {
  }

  lemma StepGrows(n: Node, st: Step)
    requires Enabled(n, st)
    ensures n.nextId <= Next(n, st).nextId && Next(n, st).limit == n.limit && n.stream <= Next(n, st).stream
  {
  }

  lemma {:induction false} RunGrows(n: Node, steps: seq<Step>)
    requires Runs(n, steps)
    ensures var m := Exec(n, steps); n.nextId <= m.nextId && m.limit == n.limit && n.stream <= m.stream
  {
    if steps == [] {
    } else {
      RunGrows(n, steps[..|steps| - 1]);
      StepGrows(Exec(n, steps[..|steps| - 1]), steps[|steps| - 1]);
    }
  }

  // -------------------------------------------------------------- answers

  /** The events that are news to a client at `from`. */
  function Above(es: seq<WatchEvent>, from: nat): seq<WatchEvent> {
    if es == [] then []
    else
      var rest, last := Above(es[..|es| - 1], from), es[|es| - 1];
      if last.revision > from then rest + [last] else rest
  }

  lemma {:induction false} AllAbove(es: seq<WatchEvent>, from: nat)
    requires forall i :: 0 <= i < |es| ==> es[i].revision > from
    ensures Above(es, from) == es
  {
    if es == [] {
    } else {
      AllAbove(es[..|es| - 1], from);
      assert es == es[..|es| - 1] + [es[|es| - 1]];
    }
  }

  lemma {:induction false} NoneAbove(es: seq<WatchEvent>, from: nat)
    requires forall i :: 0 <= i < |es| ==> es[i].revision <= from
    ensures Above(es, from) == []
  {
    if es == [] {
    } else {
      NoneAbove(es[..|es| - 1], from);
    }
  }

  lemma {:induction false} AboveConcat(a: seq<WatchEvent>, b: seq<WatchEvent>, from: nat)
    ensures Above(a + b, from) == Above(a, from) + Above(b, from)
  {
    if b == [] {
      assert a + b == a;
    } else {
      assert (a + b)[..|a + b| - 1] == a + b[..|b| - 1];
      AboveConcat(a, b[..|b| - 1], from);
    }
  }

  lemma SplitNews(head: seq<WatchEvent>, tail: seq<WatchEvent>, from: nat)
    requires forall i :: 0 <= i < |head| ==> head[i].revision <= from
    requires forall i :: 0 <= i < |tail| ==> tail[i].revision > from
    ensures Above(head + tail, from) == tail
  {
    AboveConcat(head, tail, from);
    NoneAbove(head, from);
    AllAbove(tail, from);
  }

  lemma TailIsNews(h: seq<WatchEvent>, filter: string, from: nat, last: nat, tail: seq<WatchEvent>)
    requires Numbered(h, 0) && tail == Select(Window(h, from, last), filter)
    ensures forall i :: 0 <= i < |tail| ==> tail[i].revision > from
  {
    assert Numbered(Window(h, from, last), from);
    SelectAscending(Window(h, from, last), filter, from);
  }

  lemma NewsAt(h: seq<WatchEvent>, filter: string, from: nat, pend: seq<WatchEvent>, es: seq<WatchEvent>, d: nat)
    requires Numbered(h, 0) && es != [] && d <= |es| && SplitAt(h, filter, from, pend, es, d)
    ensures Above(es, from) == Select(Window(h, from, es[|es| - 1].revision), filter)
    ensures forall i :: d <= i < |es| ==> es[i].revision > from
  {
    var last := es[|es| - 1].revision;
    var head, tail := es[..d], Select(Window(h, from, last), filter);
    TailIsNews(h, filter, from, last, tail);
    assert es == head + es[d..] == head + tail;
    SplitNews(head, tail, from);
  }

  lemma GoodNews(h: seq<WatchEvent>, filter: string, from: nat, pend: seq<WatchEvent>, es: seq<WatchEvent>)
    requires Numbered(h, 0) && Good(h, filter, from, pend, es)
    ensures Above(es, from) == Select(Window(h, from, es[|es| - 1].revision), filter)
    ensures forall e :: e in es && e.revision <= from ==> e in pend && Matches(filter, e)
  {
    var d :| 0 <= d <= |es| && SplitAt(h, filter, from, pend, es, d);
    NewsAt(h, filter, from, pend, es, d);
  }

  /** Strictly ascending events, the last of which is the anchor. */
  ghost predicate Listed(a: Answer) {
    a.events != [] && Ascending(a.events) && a.currentRevision == a.events[|a.events| - 1].revision
  }

  /** What lies above `from` is every matching event of (from, anchor], nothing else. */
  ghost predicate CompleteAnswer(h: seq<WatchEvent>, w: Watcher, a: Answer) {
    Above(a.events, w.from) == Select(Window(h, w.from, a.currentRevision), w.filter)
  }

  lemma GoodAnswer(h: seq<WatchEvent>, w: Watcher, out: Outcome, revision: nat)
    requires out.Found? && Numbered(h, 0) && Good(h, w.filter, w.from, w.aux.pend, out.es)
    ensures var a := AnswerOf(out, revision);
            a.code == OK && Listed(a) && CompleteAnswer(h, w, a)
  {
    GoodNews(h, w.filter, w.from, w.aux.pend, out.es);
  }

  lemma {:induction false} AboveMember(es: seq<WatchEvent>, from: nat, e: WatchEvent)
    requires e in Above(es, from)
    ensures e in es
  {
    if es == [] {
    } else {
      var pre := es[..|es| - 1];
      assert es == pre + [es[|es| - 1]];
      if e in Above(pre, from) { AboveMember(pre, from, e); }
    }
  }

  /** An answer with a gap is not complete. */
  lemma GapAnswer(h: seq<WatchEvent>, w: Watcher, out: Outcome, revision: nat)
    requires out.Found? && Numbered(h, 0) && GapIn(h, w.filter, w.from, out.es)
    ensures !CompleteAnswer(h, w, AnswerOf(out, revision))
  {
    var es := out.es;
    var last := es[|es| - 1].revision;
    var i: nat :| w.from <= i && i + 1 < last && Unreturned(h, w.filter, es, i);
    assert Window(h, w.from, last)[i - w.from] == h[i];
    SelectMember(Window(h, w.from, last), w.filter, h[i]);
    if h[i] in Above(es, w.from) { AboveMember(es, w.from, h[i]); }
  }

  lemma GoodQuiet(h: seq<WatchEvent>, filter: string, from: nat, pend: seq<WatchEvent>, es: seq<WatchEvent>)
    requires Numbered(h, 0) && Good(h, filter, from, pend, es)
    requires forall e :: e in pend && Matches(filter, e) ==> e.revision > from
    ensures es == Select(Window(h, from, es[|es| - 1].revision), filter) && es[|es| - 1].revision > from
  {
    GoodNews(h, filter, from, pend, es);
    forall i | 0 <= i < |es| ensures es[i].revision > from { assert es[i] in es; }
    AllAbove(es, from);
  }

  /** Watcher id is about to return OK with events for a positive `from`. */
  ghost predicate AnswersEvents(n: Node, id: nat) {
    Enabled(n, Return(id)) && n.watchers[id].pc.out.Found? && n.watchers[id].from > 0
  }

  /** The same, naming the watcher and its outcome. */
  ghost predicate Answering(n: Node, id: nat, w: Watcher, out: Outcome) {
    AnswersEvents(n, id) && w == n.watchers[id] && w.pc == Closing(out) && out.Found?
  }

  lemma AnswerOK(n: Node, id: nat, w: Watcher, out: Outcome)
    requires NodeInv(n) && Answering(n, id, w, out)
    ensures OutcomeOK(n.stream, w, out) && Numbered(n.stream, 0)
  {
    assert At(n, id);
  }

  lemma AnswerFacts(limit: nat, steps: seq<Step>, n: Node, id: nat, w: Watcher, out: Outcome)
    requires Answering(n, id, w, out) && Reached(limit, steps, n)
    ensures OutcomeOK(n.stream, w, out) && Numbered(n.stream, 0)
  {
    ReachableInv(limit, steps, n);
    AnswerOK(n, id, w, out);
  }

  // ------------------------------------------------ snapshots over a watcher

  /** The step installs a snapshot while the watcher waits, and the snapshot brings
      an event it watches for. */
  ghost predicate Overtakes(n: Node, st: Step, id: nat) {
    && st.Install? && At(n, id) && n.watchers[id].pc.Waiting? && n.stream <= st.history
    && Select(st.history[|n.stream|..], n.watchers[id].filter) != []
  }

  /** Some snapshot of this run did so. */
  ghost predicate Overtaken(start: Node, steps: seq<Step>, id: nat)
    requires Runs(start, steps)
  {
    steps != [] && (Overtaken(start, steps[..|steps| - 1], id) ||
                    Overtakes(Exec(start, steps[..|steps| - 1]), steps[|steps| - 1], id))
  }

  lemma SkipStep(n: Node, st: Step, id: nat)
    requires Enabled(n, st) && At(n, id) && At(Next(n, st), id) && id < n.nextId
    requires BeforeHub(n.watchers[id].pc) ==> n.watchers[id].aux.skip == 0
    requires n.watchers[id].pc.Waiting? && n.watchers[id].aux.missed ==> n.watchers[id].aux.skip > 0
    requires n.watchers[id].pc.Waiting? ==> n.watchers[id].aux.skip <= |n.stream|
    requires st.Install? ==> |st.history| == st.data.revision
    ensures Next(n, st).watchers[id].aux.skip > 0 <==> n.watchers[id].aux.skip > 0 || Overtakes(n, st, id)
  {
    if st.Install? {
      InstallSkip(n.watchers[id], st.history[|n.stream|..], st.data.revision);
    }
  }

  lemma InstallSkip(w: Watcher, brought: seq<WatchEvent>, revision: nat)
    requires w.pc.Waiting? && w.aux.missed ==> w.aux.skip > 0
    requires |brought| <= revision && (w.pc.Waiting? ==> w.aux.skip <= revision)
    ensures OnInstall(w, brought, revision).aux.skip > 0 <==>
            w.aux.skip > 0 || (w.pc.Waiting? && Select(brought, w.filter) != [])
  {
    if w.pc.Waiting? && brought == [] {
      assert Select(brought, w.filter) == [];
    }
  }

  lemma SkipFacts(n: Node, id: nat)
    requires NodeInv(n) && At(n, id)
    ensures id < n.nextId
    ensures BeforeHub(n.watchers[id].pc) ==> n.watchers[id].aux.skip == 0
    ensures n.watchers[id].pc.Waiting? && n.watchers[id].aux.missed ==> n.watchers[id].aux.skip > 0
    ensures n.watchers[id].pc.Waiting? ==> n.watchers[id].aux.skip <= |n.stream|
  {
  }

  lemma NewWatcher(n: Node, st: Step, id: nat)
    requires Enabled(n, st) && !At(n, id) && At(Next(n, st), id)
    ensures id == n.nextId && Next(n, st).watchers[id].aux.skip == 0
  {
  }

  /** Ids are given out once. */
  lemma {:induction false} OvertakenIds(limit: nat, steps: seq<Step>, id: nat)
    requires Runs(NewNode(limit), steps) && Overtaken(NewNode(limit), steps, id)
    ensures id < Exec(NewNode(limit), steps).nextId
  {
    if steps == [] {
    } else {
      var pre, st := steps[..|steps| - 1], steps[|steps| - 1];
      var m := Exec(NewNode(limit), pre);
      if Overtaken(NewNode(limit), pre, id) {
        OvertakenIds(limit, pre, id);
      } else {
        ReachableInv(limit, pre, m);
        SkipFacts(m, id);
      }
      StepGrows(m, st);
    }
  }

  /** The history variable `skip` is set exactly if, in this run, some snapshot
      overtook the watcher. */
  lemma {:induction false} SkipOrigin(limit: nat, steps: seq<Step>, n: Node, id: nat)
    requires Reached(limit, steps, n) && At(n, id)
    ensures n.watchers[id].aux.skip > 0 <==> Overtaken(NewNode(limit), steps, id)
  {
    if steps == [] {
    } else {
      var pre, st := steps[..|steps| - 1], steps[|steps| - 1];
      var m := Exec(NewNode(limit), pre);
      if At(m, id) {
        SkipOrigin(limit, pre, m, id);
        ReachableInv(limit, pre, m);
        SkipFacts(m, id);
        SkipStep(m, st, id);
      } else {
        NewWatcher(m, st, id);
        if Overtaken(NewNode(limit), pre, id) { OvertakenIds(limit, pre, id); }
      }
    }
  }

  /** Watch has no gaps: in every interleaving of commits (refused commands and
      failed writes included), broadcasts, compactions, installs and watchers, an OK
      answer with events to a positive `from` lists in strictly ascending order
      every matching committed event in (from, anchor], unless a snapshot brought
      the waiting watcher a matching event past the hub. */
  lemma WatchHasNoGaps(limit: nat, steps: seq<Step>, n: Node, id: nat, w: Watcher, out: Outcome)
    requires Answering(n, id, w, out) && Reached(limit, steps, n)
    requires !Overtaken(NewNode(limit), steps, id)
    ensures var a := AnswerOf(out, n.store.revision);
            a.code == OK && Listed(a) && CompleteAnswer(n.stream, w, a)
  {
    SkipOrigin(limit, steps, n, id);
    NotOvertaken(limit, steps, n, id, w);
    AnswerFacts(limit, steps, n, id, w, out);
    GoodAnswer(n.stream, w, out, n.store.revision);
  }

  lemma MissedStep(n: Node, st: Step, id: nat)
    requires Enabled(n, st) && At(Next(n, st), id)
    requires At(n, id) && n.watchers[id].aux.skip == 0 ==> !n.watchers[id].aux.missed
    ensures Next(n, st).watchers[id].aux.skip == 0 ==> !Next(n, st).watchers[id].aux.missed
  {
  }

  lemma {:induction false} NotOvertaken(limit: nat, steps: seq<Step>, n: Node, id: nat, w: Watcher)
    requires At(n, id) && w == n.watchers[id] && Reached(limit, steps, n)
    ensures w.aux.skip == 0 ==> !w.aux.missed
  {
    if steps == [] {
    } else {
      var pre := steps[..|steps| - 1];
      var m := Exec(NewNode(limit), pre);
      if At(m, id) { NotOvertaken(limit, pre, m, id, m.watchers[id]); }
      MissedStep(m, steps[|steps| - 1], id);
    }
  }

  lemma MissedExactly(limit: nat, steps: seq<Step>, n: Node, id: nat, w: Watcher, out: Outcome)
    requires Answering(n, id, w, out) && Reached(limit, steps, n)
    ensures CompleteAnswer(n.stream, w, AnswerOf(out, n.store.revision)) <==> !w.aux.missed
    ensures !w.aux.missed ==> Listed(AnswerOf(out, n.store.revision))
  {
    AnswerFacts(limit, steps, n, id, w, out);
    if w.aux.missed {
      GapAnswer(n.stream, w, out, n.store.revision);
    } else {
      GoodAnswer(n.stream, w, out, n.store.revision);
    }
  }

  /** The step broadcasts a command with an event the watcher watches for to its
      buffer, which does not overflow. */
  ghost predicate Delivers(n: Node, st: Step, id: nat) {
    && st.PushNext? && n.applier.Pushing? && n.applier.todo != [] && n.applier.todo[0] == id && At(n, id)
    && Buffering(n.watchers[id].pc)
    && Select(n.applier.es, n.watchers[id].filter) != []
    && !PushAll(n.watchers[id].buffer, n.watchers[id].filter, n.applier.es, n.limit).overflow
  }

  /** Some broadcast of this run did so after a snapshot had overtaken the watcher. */
  ghost predicate Passed(start: Node, steps: seq<Step>, id: nat)
    requires Runs(start, steps)
  {
    steps != [] && (Passed(start, steps[..|steps| - 1], id) ||
                    (Overtaken(start, steps[..|steps| - 1], id) &&
                     Delivers(Exec(start, steps[..|steps| - 1]), steps[|steps| - 1], id)))
  }

  lemma DeliverStep(n: Node, st: Step, id: nat)
    requires Enabled(n, st) && At(n, id) && At(Next(n, st), id) && id < n.nextId
    requires BeforeHub(n.watchers[id].pc) ==> !n.watchers[id].aux.missed
    ensures Next(n, st).watchers[id].aux.missed <==>
            n.watchers[id].aux.missed || (n.watchers[id].aux.skip > 0 && Delivers(n, st, id))
  {
  }

  lemma {:induction false} PassedOvertaken(start: Node, steps: seq<Step>, id: nat)
    requires Runs(start, steps) && Passed(start, steps, id)
    ensures Overtaken(start, steps, id)
  {
    var pre := steps[..|steps| - 1];
    if Passed(start, pre, id) {
      PassedOvertaken(start, pre, id);
    } else {
      assert Overtaken(start, pre, id);
    }
  }

  lemma EarlyNotMissed(limit: nat, steps: seq<Step>, n: Node, id: nat)
    requires At(n, id) && Reached(limit, steps, n)
    ensures id < n.nextId && (BeforeHub(n.watchers[id].pc) ==> !n.watchers[id].aux.missed)
  {
    ReachableInv(limit, steps, n);
    SkipFacts(n, id);
    NotOvertaken(limit, steps, n, id, n.watchers[id]);
  }

  /** The history variable `missed` is set exactly if, in this run, a matching
      broadcast reached the watcher's buffer after a snapshot had overtaken it. */
  lemma {:induction false} MissedOrigin(limit: nat, steps: seq<Step>, n: Node, id: nat)
    requires Reached(limit, steps, n) && At(n, id)
    ensures n.watchers[id].aux.missed <==> Passed(NewNode(limit), steps, id)
  {
    if steps == [] {
    } else {
      var pre, st := steps[..|steps| - 1], steps[|steps| - 1];
      var m := Exec(NewNode(limit), pre);
      if At(m, id) {
        MissedOrigin(limit, pre, m, id);
        SkipOrigin(limit, pre, m, id);
        EarlyNotMissed(limit, pre, m, id);
        DeliverStep(m, st, id);
      } else {
        NewNotMissed(m, st, id);
        if Passed(NewNode(limit), pre, id) {
          PassedOvertaken(NewNode(limit), pre, id);
          OvertakenIds(limit, pre, id);
        }
      }
    }
  }

  lemma NewNotMissed(n: Node, st: Step, id: nat)
    requires Enabled(n, st) && !At(n, id) && At(Next(n, st), id)
    ensures id == n.nextId && !Next(n, st).watchers[id].aux.missed && !Delivers(n, st, id)
  {
  }

  /** Exactly when an answer has a gap, installs included: when, in this run, a
      matching broadcast reached the watcher's buffer after a snapshot had brought it
      a matching event past the hub. */
  lemma GapExactly(limit: nat, steps: seq<Step>, n: Node, id: nat, w: Watcher, out: Outcome)
    requires Answering(n, id, w, out) && Reached(limit, steps, n)
    ensures CompleteAnswer(n.stream, w, AnswerOf(out, n.store.revision)) <==> !Passed(NewNode(limit), steps, id)
    ensures !Passed(NewNode(limit), steps, id) ==> Listed(AnswerOf(out, n.store.revision))
  {
    MissedExactly(limit, steps, n, id, w, out);
    MissedOrigin(limit, steps, n, id);
  }

  // ----------------------------------------------------------- redelivery

  /** Past registration. */
  predicate Joined(pc: Pc) {
    InHub(pc) || pc.Draining? || (pc.Closing? && (pc.out.Found? || pc.out.Nothing?))
  }

  lemma JoinedBefore(n: Node, st: Step, id: nat)
    requires Enabled(n, st) && At(Next(n, st), id) && Joined(Next(n, st).watchers[id].pc)
    requires st != Register(id)
    ensures At(n, id) && Joined(n.watchers[id].pc)
  {
  }

  lemma PendStep(n: Node, st: Step, id: nat)
    requires Enabled(n, st) && At(n, id) && At(Next(n, st), id) && id < n.nextId && st != Register(id)
    ensures Next(n, st).watchers[id].aux.pend == n.watchers[id].aux.pend
  {
  }

  lemma IdGiven(limit: nat, steps: seq<Step>, n: Node, id: nat)
    requires At(n, id) && Reached(limit, steps, n)
    ensures id < n.nextId
  {
    ReachableInv(limit, steps, n);
    SkipFacts(n, id);
  }

  /** The pending command a watcher remembers is the one that was committed but
      not yet broadcast when it registered. */
  lemma {:induction false} PendOrigin(limit: nat, steps: seq<Step>, n: Node, id: nat) returns (k: nat, at: Node)
    requires Reached(limit, steps, n) && At(n, id) && Joined(n.watchers[id].pc)
    ensures k < |steps| && steps[k] == Register(id) && Reached(limit, steps[..k], at)
    ensures n.watchers[id].aux.pend == Unsent(at)
  {
    var pre, st := steps[..|steps| - 1], steps[|steps| - 1];
    at := Exec(NewNode(limit), pre);
    if st == Register(id) {
      k := |pre|;
    } else {
      JoinedBefore(at, st, id);
      IdGiven(limit, pre, at, id);
      PendStep(at, st, id);
      k, at := PendOrigin(limit, pre, at, id);
      assert steps[..k] == pre[..k];
    }
  }

  /** Redelivery is bounded: whatever an answer repeats at or below `from` belongs
      to the one command that was committed but not yet broadcast at registration. */
  lemma RedeliveryIsBounded(limit: nat, steps: seq<Step>, n: Node, id: nat, w: Watcher, out: Outcome)
    returns (k: nat, at: Node)
    requires Answering(n, id, w, out) && Reached(limit, steps, n)
    ensures k < |steps| && steps[k] == Register(id) && Reached(limit, steps[..k], at)
    ensures forall e :: e in out.es && e.revision <= w.from ==> e in Unsent(at) && Matches(w.filter, e)
  {
    AnswerFacts(limit, steps, n, id, w, out);
    k, at := PendOrigin(limit, steps, n, id);
  }

  /** No matching event of the command unbroadcast at registration is old news. */
  ghost predicate QuietStart(w: Watcher) {
    forall e :: e in w.aux.pend && Matches(w.filter, e) ==> e.revision > w.from
  }

  /** No loss and no repetition: exactly the matching history of (from, anchor],
      and the anchor advances. */
  ghost predicate ExactAnswer(h: seq<WatchEvent>, w: Watcher, a: Answer) {
    a.events == Select(Window(h, w.from, a.currentRevision), w.filter) && a.currentRevision > w.from
  }

  /** The promise "no loss, no repetition" holds when the command unbroadcast at
      registration has no matching event at or below `from`. */
  lemma NoRedeliveryWhenQuiet(limit: nat, steps: seq<Step>, n: Node, id: nat, w: Watcher, out: Outcome)
    requires Answering(n, id, w, out) && QuietStart(w) && Reached(limit, steps, n)
    requires !Overtaken(NewNode(limit), steps, id)
    ensures ExactAnswer(n.stream, w, AnswerOf(out, n.store.revision))
  {
    SkipOrigin(limit, steps, n, id);
    NotOvertaken(limit, steps, n, id, w);
    AnswerFacts(limit, steps, n, id, w, out);
    QuietExact(n.stream, w, out, n.store.revision);
  }

  lemma QuietExact(h: seq<WatchEvent>, w: Watcher, out: Outcome, revision: nat)
    requires out.Found? && QuietStart(w) && Numbered(h, 0) && Good(h, w.filter, w.from, w.aux.pend, out.es)
    ensures ExactAnswer(h, w, AnswerOf(out, revision))
  {
    GoodQuiet(h, w.filter, w.from, w.aux.pend, out.es);
  }

  // ------------------------------------------------------------- the anchor

  lemma ReturnOK(n: Node, id: nat, w: Watcher)
    requires NodeInv(n) && Enabled(n, Return(id)) && w == n.watchers[id] && w.from > 0
    ensures OutcomeOK(n.stream, w, w.pc.out) && Numbered(n.stream, 0) && |n.stream| == n.store.revision
  {
    assert At(n, id);
  }

  /** When the anchor of an answer lies below the `from` asked for. */
  ghost predicate FallsBack(w: Watcher, out: Outcome, revision: nat) {
    || out.Canceled?
    || (out.Lagging? && revision < w.from)
    || (out.Found? && forall e :: e in out.es ==> e.revision < w.from)
  }

  lemma AnchorOf(h: seq<WatchEvent>, w: Watcher, out: Outcome)
    requires w.from > 0 && OutcomeOK(h, w, out)
    ensures AnswerOf(out, |h|).currentRevision < w.from <==> FallsBack(w, out, |h|)
  {
    if out.Found? {
      var es := out.es;
      assert es[|es| - 1] in es;
      if !w.aux.missed {
        forall e | e in es ensures e.revision <= es[|es| - 1].revision {
          var i :| 0 <= i < |es| && es[i] == e;
        }
      }
    }
  }

  /** "Never a current_revision below from": for every return to a positive `from`,
      the anchor is below it exactly if the watcher was canceled, or gave up with
      the store still behind, or all events of the answer are old. */
  lemma AnchorFallsBack(limit: nat, steps: seq<Step>, n: Node, id: nat, w: Watcher)
    requires Enabled(n, Return(id)) && w == n.watchers[id] && w.from > 0
    requires Reached(limit, steps, n)
    ensures AnswerOf(w.pc.out, n.store.revision).currentRevision < w.from <==>
            FallsBack(w, w.pc.out, n.store.revision)
  {
    ReachableInv(limit, steps, n);
    ReturnOK(n, id, w);
    AnchorOf(n.stream, w, w.pc.out);
  }

  // ------------------------------------------------------- the empty answer

  /** Unregistered after waiting, and so far without events. */
  predicate Left(pc: Pc) { pc.Draining? || (pc.Closing? && pc.out.Nothing?) }

  /** What is still known of the moment the watcher left the hub. */
  ghost predicate LeftSince(at: Node, n: Node, id: nat) {
    && At(at, id) && At(n, id) && at.watchers[id].pc.Waiting? && at.stream <= n.stream
    && LeftAs(at.watchers[id], n.watchers[id])
  }

  ghost predicate LeftAs(a: Watcher, w: Watcher)
    requires a.pc.Waiting?
  {
    && w.filter == a.filter && w.from == a.from
    && (w.pc.Draining? ==> w.pc.cur == a.pc.cur && a.aux.level <= w.aux.level)
    && (w.pc.Closing? && w.pc.out.Nothing? ==> Max(a.pc.cur, a.aux.level) <= w.pc.out.seen)
  }

  lemma LeftAsStep(a: Watcher, n: Node, st: Step, id: nat)
    requires Enabled(n, st) && At(n, id) && At(Next(n, st), id) && id < n.nextId && a.pc.Waiting?
    requires Left(n.watchers[id].pc) && LeftAs(a, n.watchers[id])
    requires n.watchers[id].pc.Draining? ==> n.watchers[id].aux.level <= n.store.revision
    ensures LeftAs(a, Next(n, st).watchers[id])
  {
    OneRequest(n, st, id);
  }

  lemma LeftStep(at: Node, n: Node, st: Step, id: nat)
    requires Enabled(n, st) && At(n, id) && At(Next(n, st), id) && id < n.nextId
    requires Left(n.watchers[id].pc) && LeftSince(at, n, id)
    requires n.watchers[id].pc.Draining? ==> n.watchers[id].aux.level <= n.store.revision
    ensures LeftSince(at, Next(n, st), id)
  {
    StepGrows(n, st);
    LeftAsStep(at.watchers[id], n, st, id);
  }

  lemma LevelReached(n: Node, id: nat)
    requires NodeInv(n) && At(n, id)
    ensures id < n.nextId
    ensures n.watchers[id].pc.Draining? ==> n.watchers[id].aux.level <= n.store.revision
  {
  }

  lemma LeftBefore(n: Node, st: Step, id: nat)
    requires Enabled(n, st) && At(Next(n, st), id) && Left(Next(n, st).watchers[id].pc) && st != Unregister(id)
    ensures At(n, id) && Left(n.watchers[id].pc)
  {
  }

  lemma JustLeft(limit: nat, steps: seq<Step>, at: Node, id: nat)
    requires Reached(limit, steps, at) && Enabled(at, Unregister(id)) && Left(Next(at, Unregister(id)).watchers[id].pc)
    ensures LeftSince(at, Next(at, Unregister(id)), id)
  {
    ReachableInv(limit, steps, at);
    assert At(at, id);
  }

  lemma LeftKeeps(limit: nat, steps: seq<Step>, at: Node, n: Node, st: Step, id: nat)
    requires Reached(limit, steps, n) && Enabled(n, st) && At(n, id) && At(Next(n, st), id)
    requires Left(n.watchers[id].pc) && LeftSince(at, n, id)
    ensures LeftSince(at, Next(n, st), id)
  {
    ReachableInv(limit, steps, n);
    LevelReached(n, id);
    LeftStep(at, n, st, id);
  }

  lemma {:induction false} UnregisterOrigin(limit: nat, steps: seq<Step>, n: Node, id: nat) returns (k: nat, at: Node)
    requires Reached(limit, steps, n) && At(n, id) && Left(n.watchers[id].pc)
    ensures k < |steps| && steps[k] == Unregister(id) && Reached(limit, steps[..k], at)
    ensures LeftSince(at, n, id)
  {
    var pre, st := steps[..|steps| - 1], steps[|steps| - 1];
    var m := Exec(NewNode(limit), pre);
    if st == Unregister(id) {
      k, at := |pre|, m;
      JustLeft(limit, pre, m, id);
    } else {
      LeftBefore(m, st, id);
      k, at := UnregisterOrigin(limit, pre, m, id);
      LeftKeeps(limit, pre, at, m, st, id);
      assert steps[..k] == pre[..k];
    }
  }

  /** The events of the command that has been committed but not yet pushed to this waiter. */
  function InFlight(n: Node, id: nat): seq<WatchEvent> {
    if n.applier.Committed? || Due(n, id) then n.applier.es else []
  }

  /** A matching event above `from`. */
  ghost predicate News(es: seq<WatchEvent>, filter: string, from: nat) {
    exists e :: e in es && Matches(filter, e) && e.revision > from
  }

  /** Where a waiter about to leave the hub stands. */
  ghost predicate Standing(h0: seq<WatchEvent>, a: Watcher, flight: seq<WatchEvent>) {
    && a.pc.Waiting? && a.from <= a.pc.cur <= |h0|
    && if a.aux.skip > 0
       then a.pc.cur <= a.aux.level < a.aux.skip <= |h0| &&
            Select(h0[a.aux.level..a.aux.skip], a.filter) != []
       else a.aux.level <= |h0| && flight == h0[a.aux.level..]
  }

  lemma WaiterStands(at: Node, id: nat, a: Watcher)
    requires NodeInv(at) && At(at, id) && a == at.watchers[id] && a.pc.Waiting? && a.from > 0
    ensures Standing(at.stream, a, InFlight(at, id))
    ensures forall e :: e in InFlight(at, id) ==> e in at.stream
  {
    assert at.stream[|at.stream|..] == [];
    assert WatcherOK(at.stream, at.store.compactRev, at.limit, Lag(at, id), Due(at, id), a);
  }

  /** Where the unreturned matching events of an empty answer can lie. */
  lemma WhereNews(h0: seq<WatchEvent>, h: seq<WatchEvent>, a: Watcher, flight: seq<WatchEvent>, seen: nat)
    requires Numbered(h, 0) && h0 <= h && Standing(h0, a, flight) && forall e :: e in flight ==> e in h0
    requires a.from <= seen <= |h| && Select(h[a.from..seen], a.filter) == [] && a.aux.level <= seen
    ensures News(h, a.filter, a.from) <==>
            News(h[|h0|..], a.filter, a.from) || News(flight, a.filter, a.from) || a.aux.skip > 0
  {
    if a.aux.skip > 0 {
      var i := SelectSome(h0, a.filter, a.aux.level, a.aux.skip);
      assert h[i] in h && h[i] == h0[i];
    }
    if News(h, a.filter, a.from) && a.aux.skip == 0 {
      var e :| e in h && Matches(a.filter, e) && e.revision > a.from;
      NewsPlace(h0, h, a, seen, e);
    }
  }

  lemma NewsPlace(h0: seq<WatchEvent>, h: seq<WatchEvent>, a: Watcher, seen: nat, e: WatchEvent)
    requires Numbered(h, 0) && h0 <= h && a.aux.level <= |h0| && a.aux.level <= seen
    requires a.from <= seen <= |h| && Select(h[a.from..seen], a.filter) == []
    requires e in h && Matches(a.filter, e) && e.revision > a.from
    ensures e in h[|h0|..] || e in h0[a.aux.level..]
  {
    var i :| 0 <= i < |h| && h[i] == e;
    if i < a.aux.level {
      assert h[a.from..seen][i - a.from] == e;
      SelectMember(h[a.from..seen], a.filter, e);
    } else if i < |h0| {
      assert h0[a.aux.level..][i - a.aux.level] == e;
    } else {
      assert h[|h0|..][i - |h0|] == e;
    }
  }

  /** An empty OK answer to a positive `from`. */
  ghost predicate AnswersNothing(n: Node, id: nat, w: Watcher) {
    Enabled(n, Return(id)) && w == n.watchers[id] && w.pc.out.Nothing? && w.from > 0
  }

  /** An empty OK answer carries the store's revision read after unregistering.
      Resuming there skips a matching event exactly if, seen from the Unregister
      step, one was committed (or installed) later, or belonged to the command not
      yet pushed to this waiter, or had been brought past the hub by a snapshot. */
  lemma EmptyAnswerAnchor(limit: nat, steps: seq<Step>, n: Node, id: nat, w: Watcher) returns (k: nat, at: Node)
    requires AnswersNothing(n, id, w) && Reached(limit, steps, n)
    ensures k < |steps| && steps[k] == Unregister(id) && Reached(limit, steps[..k], at) && at.stream <= n.stream
    ensures var a := AnswerOf(w.pc.out, n.store.revision);
            a.code == OK && a.events == [] && w.from <= a.currentRevision == |n.stream|
    ensures News(n.stream, w.filter, w.from) <==>
            || News(n.stream[|at.stream|..], w.filter, w.from)
            || News(InFlight(at, id), w.filter, w.from)
            || Overtaken(NewNode(limit), steps[..k], id)
  {
    ReachableInv(limit, steps, n);
    ReturnOK(n, id, w);
    k, at := UnregisterOrigin(limit, steps, n, id);
    SkipOrigin(limit, steps[..k], at, id);
    ReachableInv(limit, steps[..k], at);
    EmptyAnswerAt(at, n, id, at.watchers[id], w, w.pc.out.seen);
  }

  lemma EmptyAnswerAt(at: Node, n: Node, id: nat, a: Watcher, w: Watcher, seen: nat)
    requires w.pc == Closing(Nothing(seen)) && w.from > 0 && LeftSince(at, n, id) && NodeInv(at)
    requires a == at.watchers[id] && w == n.watchers[id]
    requires Numbered(n.stream, 0) && OutcomeOK(n.stream, w, Nothing(seen))
    ensures News(n.stream, w.filter, w.from) <==>
            || News(n.stream[|at.stream|..], w.filter, w.from)
            || News(InFlight(at, id), w.filter, w.from)
            || a.aux.skip > 0
  {
    WaiterStands(at, id, a);
    WhereNews(at.stream, n.stream, a, InFlight(at, id), seen);
  }
}
