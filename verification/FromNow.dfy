/** A watch "from now on" (from_revision 0): what it answers in terms of the committed
    history, and when it returns what was committed before it registered
    (src/watch/watch_hub.cpp). */
module FromNow {
  import opened Records
  import opened Hub
  import opened WatchNode
  import opened WatchSteps
  import opened WatchTheorems
  import opened Answers

  predicate Looping(pc: Pc) { pc.Waiting? || pc.Draining? }

  /** What was pushed to the watcher matches as much as the history from `base`,
      where it registered, up to its level, which is `base` still or not below
      `entered`, the length of the history then. */
  ghost predicate Follows(h: seq<WatchEvent>, w: Watcher, base: nat, entered: nat, pushed: seq<WatchEvent>) {
    && w.aux.base == base <= w.aux.level <= |h|
    && (w.aux.level == base || entered <= w.aux.level)
    && Select(pushed, w.filter) == Select(h[base..w.aux.level], w.filter)
  }

  lemma FollowsGrown(h: seq<WatchEvent>, h': seq<WatchEvent>, w: Watcher, base: nat, entered: nat, pushed: seq<WatchEvent>)
    requires Follows(h, w, base, entered, pushed) && h <= h'
    ensures Follows(h', w, base, entered, pushed)
  {
    assert h'[base..w.aux.level] == h[base..w.aux.level];
  }

  lemma FollowsPush(h: seq<WatchEvent>, es: seq<WatchEvent>, w: Watcher, limit: nat, base: nat, entered: nat,
                    pushed: seq<WatchEvent>)
    requires Follows(h, w, base, entered, pushed) && w.aux.skip == 0 && entered <= |h|
    requires |es| <= |h| && es == h[|h| - |es|..] && w.aux.level == |h| - |es|
    ensures Follows(h, OnPush(w, es, limit, |h|), base, entered, pushed + es)
  {
    SelectConcat(pushed, es, w.filter);
    SelectBlank(h, w.filter, base, w.aux.level, |h|);
    assert h[w.aux.level..|h|] == es;
  }

  lemma FollowsInstall(h: seq<WatchEvent>, h': seq<WatchEvent>, w: Watcher, base: nat, entered: nat, pushed: seq<WatchEvent>)
    requires Follows(h, w, base, entered, pushed) && h <= h' && entered <= |h|
    requires w.pc.Waiting? && w.aux.level == |h| && w.aux.skip == 0 && !w.aux.missed
    requires OnInstall(w, h'[|h|..], |h'|).aux.skip == 0
    ensures Follows(h', OnInstall(w, h'[|h|..], |h'|), base, entered, pushed)
  {
    FollowsGrown(h, h', w, base, entered, pushed);
    assert h'[|h|..|h'|] == h'[|h|..];
    if h' == h {
      assert h'[|h|..] == [];
      assert Select([], w.filter) == [];
    }
    SelectBlank(h', w.filter, base, |h|, |h'|);
  }

  lemma LoopFacts(n: Node, id: nat, w: Watcher)
    requires NodeInv(n) && At(n, id) && w == n.watchers[id] && Looping(w.pc) && w.aux.skip == 0
    ensures !w.aux.missed && id < n.nextId && |n.stream| == n.store.revision
    ensures w.pc.Waiting? || Due(n, id) ==> w.aux.level == |n.stream| - Lag(n, id)
    ensures !n.applier.Idle? ==> |n.applier.es| <= |n.stream| && n.applier.es == n.stream[|n.stream| - |n.applier.es|..]
  {
    assert WatcherOK(n.stream, n.store.compactRev, n.limit, Lag(n, id), Due(n, id), w);
  }

  lemma LoopStays(n: Node, st: Step, id: nat, w: Watcher, w': Watcher)
    requires Enabled(n, st) && At(n, id) && At(Next(n, st), id)
    requires w == n.watchers[id] && w' == Next(n, st).watchers[id]
    requires id < n.nextId && Looping(w.pc) && Looping(w'.pc) && !Pushes(n, st, id) && !st.Install?
    ensures w'.aux == w.aux && w'.filter == w.filter
  {
  }

  lemma LoopPushed(n: Node, st: Step, id: nat, w: Watcher)
    requires Enabled(n, st) && At(n, id) && w == n.watchers[id] && Pushes(n, st, id)
    ensures At(Next(n, st), id) && Next(n, st).watchers[id] == OnPush(w, n.applier.es, n.limit, n.store.revision)
    ensures Next(n, st).stream == n.stream && Due(n, id) && Lag(n, id) == |n.applier.es|
  {
  }

  lemma LoopInstalled(n: Node, st: Step, id: nat, w: Watcher)
    requires Enabled(n, st) && At(n, id) && w == n.watchers[id] && st.Install?
    ensures At(Next(n, st), id) && Next(n, st).stream == st.history && n.stream <= st.history
    ensures Next(n, st).watchers[id] == OnInstall(w, st.history[|n.stream|..], |st.history|) && Lag(n, id) == 0
  {
  }

  lemma FollowsPushed(n: Node, st: Step, id: nat, w: Watcher, n': Node, w': Watcher, base: nat, entered: nat,
                      pushed: seq<WatchEvent>)
    requires NodeInv(n) && Enabled(n, st) && At(n, id) && w == n.watchers[id] && n' == Next(n, st) && At(n', id)
    requires w' == n'.watchers[id] && Looping(w.pc) && w.aux.skip == 0 && Pushes(n, st, id)
    requires Follows(n.stream, w, base, entered, pushed) && entered <= |n.stream|
    ensures Follows(n'.stream, w', base, entered, pushed + n.applier.es)
  {
    LoopFacts(n, id, w);
    LoopPushed(n, st, id, w);
    FollowsPush(n.stream, n.applier.es, w, n.limit, base, entered, pushed);
  }

  lemma FollowsInstalled(n: Node, st: Step, id: nat, w: Watcher, n': Node, w': Watcher, base: nat, entered: nat,
                         pushed: seq<WatchEvent>)
    requires NodeInv(n) && Enabled(n, st) && At(n, id) && w == n.watchers[id] && n' == Next(n, st) && At(n', id)
    requires w' == n'.watchers[id] && Looping(w.pc) && w.aux.skip == 0 && w'.aux.skip == 0 && st.Install?
    requires Follows(n.stream, w, base, entered, pushed) && entered <= |n.stream|
    ensures Follows(n'.stream, w', base, entered, pushed)
  {
    LoopFacts(n, id, w);
    LoopInstalled(n, st, id, w);
    if w.pc.Waiting? {
      FollowsInstall(n.stream, st.history, w, base, entered, pushed);
    } else {
      FollowsGrown(n.stream, st.history, w, base, entered, pushed);
    }
  }

  lemma FollowsStep(limit: nat, steps: seq<Step>, n: Node, st: Step, id: nat, w: Watcher, n': Node, w': Watcher,
                    base: nat, entered: nat, pushed: seq<WatchEvent>)
    requires Reached(limit, steps, n) && Enabled(n, st) && At(n, id) && w == n.watchers[id]
    requires n' == Next(n, st) && At(n', id)
    requires w' == n'.watchers[id] && Looping(w.pc) && w.aux.skip == 0 && Looping(w'.pc) && w'.aux.skip == 0
    requires Follows(n.stream, w, base, entered, pushed) && entered <= |n.stream|
    ensures Follows(n'.stream, w', base, entered, pushed + if Pushes(n, st, id) then n.applier.es else [])
  {
    ReachableInv(limit, steps, n);
    assert pushed + [] == pushed;
    if Pushes(n, st, id) {
      FollowsPushed(n, st, id, w, n', w', base, entered, pushed);
    } else if st.Install? {
      FollowsInstalled(n, st, id, w, n', w', base, entered, pushed);
    } else {
      SkipFacts(n, id);
      StepGrows(n, st);
      LoopStays(n, st, id, w, w');
      assert Follows(n.stream, w', base, entered, pushed);
      FollowsGrown(n.stream, n'.stream, w', base, entered, pushed);
    }
  }

  lemma PinnedFrom(n: Node, id: nat)
    requires NodeInv(n) && At(n, id)
    ensures id < n.nextId && (n.watchers[id].pc.Pinned? ==> n.watchers[id].from > 0)
  {
  }

  lemma ThereBefore(n: Node, st: Step, id: nat)
    requires Enabled(n, st) && At(Next(n, st), id) && Looping(Next(n, st).watchers[id].pc)
    ensures At(n, id)
  {
  }

  lemma LoopingBefore(n: Node, st: Step, id: nat, w: Watcher, w': Watcher)
    requires Enabled(n, st) && At(Next(n, st), id) && w' == Next(n, st).watchers[id] && st != Register(id)
    requires Looping(w'.pc) && w'.from == 0 && w'.aux.skip == 0
    requires At(n, id) && w == n.watchers[id] && id < n.nextId && (w.pc.Pinned? ==> w.from > 0)
    requires st.Install? ==> |st.history| == st.data.revision && (w.pc.Waiting? ==> w.aux.skip <= |n.stream|)
    ensures Looping(w.pc) && w.from == 0 && w.aux.skip == 0
  {
  }

  lemma LoopBefore(limit: nat, steps: seq<Step>, n: Node, st: Step, id: nat, w': Watcher)
    requires Reached(limit, steps, n) && Enabled(n, st) && At(Next(n, st), id)
    requires w' == Next(n, st).watchers[id] && st != Register(id)
    requires Looping(w'.pc) && w'.from == 0 && w'.aux.skip == 0
    ensures At(n, id)
    ensures var w := n.watchers[id]; Looping(w.pc) && w.from == 0 && w.aux.skip == 0
  {
    ReachableInv(limit, steps, n);
    ThereBefore(n, st, id);
    PinnedFrom(n, id);
    SkipFacts(n, id);
    LoopingBefore(n, st, id, n.watchers[id], w');
  }

  lemma JustEntered(limit: nat, steps: seq<Step>, n: Node, id: nat)
    requires Reached(limit, steps, n) && Enabled(n, Register(id))
    ensures At(n, id) && |Unsent(n)| <= |n.stream|
    ensures var n' := Next(n, Register(id));
            n'.stream == n.stream && At(n', id) &&
            Follows(n'.stream, n'.watchers[id], |n.stream| - |Unsent(n)|, |n.stream|, [])
  {
    ReachableInv(limit, steps, n);
    NodeFacts(n);
    var base := |n.stream| - |Unsent(n)|;
    assert n.stream[base..base] == [];
  }

  /** The last step of a run that leaves a registered watcher in the loop. */
  lemma LastStep(limit: nat, steps: seq<Step>, n: Node, m: Node, id: nat, w: Watcher)
    requires steps != [] && Reached(limit, steps, n) && m == Exec(NewNode(limit), steps[..|steps| - 1])
    requires At(n, id) && w == n.watchers[id] && Looping(w.pc) && w.from == 0 && w.aux.skip == 0
    requires steps[|steps| - 1] != Register(id)
    ensures At(m, id) && m.stream <= n.stream
    ensures var x := m.watchers[id]; Looping(x.pc) && x.from == 0 && x.aux.skip == 0
  {
    LoopBefore(limit, steps[..|steps| - 1], m, steps[|steps| - 1], id, w);
    StepGrows(m, steps[|steps| - 1]);
  }

  lemma FollowsLast(limit: nat, steps: seq<Step>, n: Node, m: Node, id: nat, x: Watcher, w: Watcher,
                    base: nat, entered: nat, before: seq<WatchEvent>)
    requires steps != [] && Reached(limit, steps, n) && m == Exec(NewNode(limit), steps[..|steps| - 1])
    requires At(m, id) && x == m.watchers[id] && At(n, id) && w == n.watchers[id]
    requires Looping(x.pc) && x.aux.skip == 0 && Looping(w.pc) && w.aux.skip == 0
    requires steps[|steps| - 1] != Register(id) && before == Pushed(NewNode(limit), steps[..|steps| - 1], id)
    requires Follows(m.stream, x, base, entered, before) && entered <= |m.stream|
    ensures Follows(n.stream, w, base, entered, Pushed(NewNode(limit), steps, id))
  {
    FollowsStep(limit, steps[..|steps| - 1], m, steps[|steps| - 1], id, x, n, w, base, entered, before);
  }

  /** The registration of a watcher in the loop, and what has been pushed to it since. */
  lemma {:induction false} LoopOrigin(limit: nat, steps: seq<Step>, n: Node, id: nat, w: Watcher, pushed: seq<WatchEvent>)
    returns (k: nat, at: Node, base: nat)
    requires Reached(limit, steps, n) && At(n, id) && w == n.watchers[id] && pushed == Pushed(NewNode(limit), steps, id)
    requires Looping(w.pc) && w.from == 0 && w.aux.skip == 0
    ensures k < |steps| && steps[k] == Register(id) && Reached(limit, steps[..k], at)
    ensures at.stream <= n.stream && base == |at.stream| - |Unsent(at)|
    ensures Follows(n.stream, w, base, |at.stream|, pushed)
  {
    var pre := steps[..|steps| - 1];
    var m := Exec(NewNode(limit), pre);
    if steps[|steps| - 1] == Register(id) {
      JustEntered(limit, pre, m, id);
      k, at, base := |pre|, m, |m.stream| - |Unsent(m)|;
    } else {
      LastStep(limit, steps, n, m, id, w);
      var before := Pushed(NewNode(limit), pre, id);
      k, at, base := LoopOrigin(limit, pre, m, id, m.watchers[id], before);
      assert steps[..k] == pre[..k];
      FollowsLast(limit, steps, n, m, id, m.watchers[id], w, base, |at.stream|, before);
    }
  }

  lemma {:induction false} OvertakenPrefix(start: Node, steps: seq<Step>, j: nat, id: nat)
    requires Runs(start, steps) && j <= |steps| && Runs(start, steps[..j]) && Overtaken(start, steps[..j], id)
    ensures Overtaken(start, steps, id)
  {
    if j == |steps| {
      assert steps[..j] == steps;
    } else {
      assert steps[..|steps| - 1][..j] == steps[..j];
      OvertakenPrefix(start, steps[..|steps| - 1], j, id);
    }
  }

  /** What had been broadcast when the watcher left the hub is within its level. */
  lemma LeftLevel(limit: nat, steps: seq<Step>, n: Node, id: nat, x: Watcher) returns (u: nat, left: Node)
    requires Reached(limit, steps, n) && At(n, id) && x == n.watchers[id] && x.pc.Draining?
    requires !Overtaken(NewNode(limit), steps, id)
    ensures u < |steps| && steps[u] == Unregister(id) && Reached(limit, steps[..u], left)
    ensures |left.stream| - |InFlight(left, id)| <= x.aux.level
  {
    u, left := UnregisterOrigin(limit, steps, n, id);
    if Overtaken(NewNode(limit), steps[..u], id) { OvertakenPrefix(NewNode(limit), steps, u, id); }
    SkipOrigin(limit, steps[..u], left, id);
    ReachableInv(limit, steps[..u], left);
    LoopFacts(left, id, left.watchers[id]);
  }

  /** A watcher about to look at its buffer: where it registered, where it left the
      hub, and the part of the history that was pushed to it. */
  lemma PushedSince(limit: nat, steps: seq<Step>, n: Node, id: nat, x: Watcher, pushed: seq<WatchEvent>)
    returns (r: nat, at: Node, u: nat, left: Node, base: nat, level: nat)
    requires Reached(limit, steps, n) && At(n, id) && x == n.watchers[id] && x.pc.Draining? && x.from == 0
    requires pushed == Pushed(NewNode(limit), steps, id) && !Overtaken(NewNode(limit), steps, id)
    ensures r < |steps| && steps[r] == Register(id) && Reached(limit, steps[..r], at)
    ensures u < |steps| && steps[u] == Unregister(id) && Reached(limit, steps[..u], left)
    ensures base == |at.stream| - |Unsent(at)| && |left.stream| - |InFlight(left, id)| <= level
    ensures base <= level <= |n.stream| && (level == base || |at.stream| <= level) && at.stream <= n.stream
    ensures Select(pushed, x.filter) == Select(n.stream[base..level], x.filter)
  {
    SkipOrigin(limit, steps, n, id);
    r, at, base := LoopOrigin(limit, steps, n, id, x, pushed);
    u, left := LeftLevel(limit, steps, n, id, x);
    level := x.aux.level;
  }

  lemma DecidedFromNow(limit: nat, steps: seq<Step>, n: Node, id: nat, w: Watcher) returns (k: nat, m: Node, x: Watcher)
    requires Reached(limit, steps, n) && At(n, id) && w == n.watchers[id] && w.pc.Closing? && w.from == 0
    requires !Overtaken(NewNode(limit), steps, id)
    ensures k < |steps| && Reached(limit, steps[..k], m) && At(m, id) && x == m.watchers[id] && m.stream <= n.stream
    ensures x.pc.Draining? && x.from == 0 && x.filter == w.filter && w.pc == Closing(BufferOutcome(x))
    ensures !Overtaken(NewNode(limit), steps[..k], id)
    ensures Takes(Buffer([], false), x.buffer, w.filter, if limit > 0 then limit else 1024,
                  Pushed(NewNode(limit), steps[..k], id))
  {
    k, m, x := SettledBy(limit, steps, n, id, w);
    SettledFromNow(limit, steps[..k], m, id, x, w, steps[k]);
    if Overtaken(NewNode(limit), steps[..k], id) { OvertakenPrefix(NewNode(limit), steps, k, id); }
  }

  /** A watch from now on that no snapshot overtook: there is a point `level`, not
      before everything that had been broadcast when it left the hub, such that it
      answers with all matching events committed between its registration (the
      command still unbroadcast then included) and that point, or with an error if
      they are more than `most`. */
  lemma WatchFromNow(limit: nat, steps: seq<Step>, n: Node, id: nat, w: Watcher, most: nat, a: Answer)
    returns (r: nat, at: Node, u: nat, left: Node, base: nat, level: nat, es: seq<WatchEvent>)
    requires Reached(limit, steps, n) && Enabled(n, Return(id)) && w == n.watchers[id] && w.from == 0
    requires !Overtaken(NewNode(limit), steps, id)
    requires most == (if limit > 0 then limit else 1024) && a == AnswerOf(w.pc.out, n.store.revision)
    ensures r < |steps| && steps[r] == Register(id) && Reached(limit, steps[..r], at)
    ensures u < |steps| && steps[u] == Unregister(id) && Reached(limit, steps[..u], left)
    ensures base == |at.stream| - |Unsent(at)| && |left.stream| - |InFlight(left, id)| <= level
    ensures base <= level <= |n.stream| && (level == base || |at.stream| <= level) && at.stream <= n.stream
    ensures es == Select(n.stream[base..level], w.filter)
    ensures a == if |es| > most then Answer(INTERNAL, [], n.store.revision)
                 else if es == [] then Answer(OK, [], n.store.revision)
                 else Answer(OK, es, es[|es| - 1].revision)
  {
    var k, m, x := DecidedFromNow(limit, steps, n, id, w);
    var pushed := Pushed(NewNode(limit), steps[..k], id);
    r, at, u, left, base, level := PushedSince(limit, steps[..k], m, id, x, pushed);
    assert steps[..k][..r] == steps[..r] && steps[..k][..u] == steps[..u];
    es := Select(n.stream[base..level], w.filter);
    WindowAnswer(x, w, most, pushed, m.stream, n.stream, base, level, n.store.revision, a, es);
  }

  lemma WindowAnswer(x: Watcher, w: Watcher, most: nat, pushed: seq<WatchEvent>, h0: seq<WatchEvent>, h: seq<WatchEvent>,
                     base: nat, level: nat, revision: nat, a: Answer, es: seq<WatchEvent>)
    requires x.pc.Draining? && Takes(Buffer([], false), x.buffer, w.filter, most, pushed) && x.filter == w.filter
    requires w.pc == Closing(BufferOutcome(x)) && a == AnswerOf(w.pc.out, revision)
    requires base <= level <= |h0| && h0 <= h && Select(pushed, x.filter) == Select(h0[base..level], x.filter)
    requires es == Select(h[base..level], w.filter)
    ensures a == if |es| > most then Answer(INTERNAL, [], revision)
                 else if es == [] then Answer(OK, [], revision)
                 else Answer(OK, es, es[|es| - 1].revision)
  {
    assert h[base..level] == h0[base..level];
    BufferAnswer(x, w, most, pushed, revision, a);
  }

  /** Only the buffer decides a watch from now on. */
  lemma SettledFromNow(limit: nat, steps: seq<Step>, m: Node, id: nat, x: Watcher, w: Watcher, st: Step)
    requires Reached(limit, steps, m) && At(m, id) && x == m.watchers[id] && w.pc.Closing? && w.from == 0
    requires Settles(m, st, id, x, w)
    ensures st == ReadBuffer(id)
  {
  }

  /** Such an answer ends at its anchor and is complete up to it. */
  lemma FromNowComplete(limit: nat, steps: seq<Step>, n: Node, id: nat, w: Watcher, a: Answer)
    returns (r: nat, at: Node, base: nat)
    requires Reached(limit, steps, n) && Enabled(n, Return(id)) && w == n.watchers[id] && w.from == 0
    requires !Overtaken(NewNode(limit), steps, id) && a == AnswerOf(w.pc.out, n.store.revision) && a.events != []
    ensures r < |steps| && steps[r] == Register(id) && Reached(limit, steps[..r], at)
    ensures base == |at.stream| - |Unsent(at)| && base < a.currentRevision <= |n.stream|
    ensures a.code == OK && a.currentRevision == a.events[|a.events| - 1].revision
    ensures a.events == Select(n.stream[base..a.currentRevision], w.filter)
  {
    var u, left, level, es;
    r, at, u, left, base, level, es := WatchFromNow(limit, steps, n, id, w, if limit > 0 then limit else 1024, a);
    StreamNumbered(limit, steps, n);
    EndsAtAnchor(n.stream, w.filter, base, level, if limit > 0 then limit else 1024, n.store.revision, a, es);
  }

  lemma StreamNumbered(limit: nat, steps: seq<Step>, n: Node)
    requires Reached(limit, steps, n)
    ensures Numbered(n.stream, 0)
  {
    ReachableInv(limit, steps, n);
  }

  lemma EndsAtAnchor(h: seq<WatchEvent>, filter: string, base: nat, level: nat, most: nat, revision: nat, a: Answer,
                     es: seq<WatchEvent>)
    requires Numbered(h, 0) && base <= level <= |h| && a.events != [] && es == Select(h[base..level], filter)
    requires a == if |es| > most then Answer(INTERNAL, [], revision)
                  else if es == [] then Answer(OK, [], revision)
                  else Answer(OK, es, es[|es| - 1].revision)
    ensures a.code == OK && a.currentRevision == a.events[|a.events| - 1].revision
    ensures base < a.currentRevision <= level && a.events == Select(h[base..a.currentRevision], filter)
  {
    CutComplete(h, filter, base, level, |a.events|);
    assert a.events[..|a.events|] == a.events;
  }

  /** "What was committed before the registration is not returned" holds exactly if
      the command unbroadcast at registration has no matching event. */
  lemma EarlierCommits(limit: nat, steps: seq<Step>, n: Node, id: nat, w: Watcher, a: Answer)
    returns (r: nat, at: Node)
    requires Reached(limit, steps, n) && Enabled(n, Return(id)) && w == n.watchers[id] && w.from == 0
    requires !Overtaken(NewNode(limit), steps, id) && a == AnswerOf(w.pc.out, n.store.revision) && a.events != []
    ensures r < |steps| && steps[r] == Register(id) && Reached(limit, steps[..r], at)
    ensures (exists e :: e in a.events && e.revision <= |at.stream|) <==> Select(Unsent(at), w.filter) != []
  {
    var u, left, base, level, es;
    r, at, u, left, base, level, es := WatchFromNow(limit, steps, n, id, w, if limit > 0 then limit else 1024, a);
    StreamNumbered(limit, steps, n);
    UnsentTail(limit, steps[..r], at);
    OldInAnswer(n.stream, at.stream, w.filter, base, level, Unsent(at), a.events);
  }

  lemma UnsentTail(limit: nat, steps: seq<Step>, at: Node)
    requires Reached(limit, steps, at)
    ensures |Unsent(at)| <= |at.stream| && Unsent(at) == at.stream[|at.stream| - |Unsent(at)|..]
  {
    ReachableInv(limit, steps, at);
  }

  lemma OldInAnswer(h: seq<WatchEvent>, h0: seq<WatchEvent>, filter: string, base: nat, level: nat,
                    pend: seq<WatchEvent>, es: seq<WatchEvent>)
    requires Numbered(h, 0) && h0 <= h && base <= |h0| && base <= level <= |h| && (level == base || |h0| <= level)
    requires pend == h0[base..] && es == Select(h[base..level], filter) && es != []
    ensures (exists e :: e in es && e.revision <= |h0|) <==> Select(pend, filter) != []
  {
    assert h[base..base] == [];
    assert Select([], filter) == [];
    assert h[base..|h0|] == pend;
    SelectBlank(h, filter, base, |h0|, level);
    SelectAscending(pend, filter, base);
    SelectAscending(h[|h0|..level], filter, |h0|);
    var early, late := Select(pend, filter), Select(h[|h0|..level], filter);
    assert es == early + late;
    if early != [] { assert early[0] in early && early[0] in es; }
  }
}
