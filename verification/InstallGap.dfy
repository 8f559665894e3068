/** Exactly when a snapshot installed over a waiting watcher leaves a gap in its
    answer: LoadSnapshot tells the hub nothing (src/raft/state_machine.cpp,
    src/watch/watch_hub.cpp). */
module InstallGap {
  import opened Records
  import opened Mvcc
  import opened History
  import opened Replication
  import opened Hub
  import opened WatchNode
  import opened WatchSteps
  import opened WatchTheorems
  import opened Schedules
  import opened WatchLimits

  /** An OK answer with events that leaves out a matching one of (from, anchor]. */
  ghost predicate Gapped(n: Node, id: nat) {
    AnswersEvents(n, id) &&
    !CompleteAnswer(n.stream, n.watchers[id], AnswerOf(n.watchers[id].pc.out, n.store.revision))
  }

  /** A matching event beyond the replay is not in the buffer, and the buffer has, or
      can still take, a later one. */
  ghost predicate Behind(h: seq<WatchEvent>, w: Watcher, limit: nat)
    requires w.pc.Waiting?
  {
    !w.buffer.overflow &&
    exists i: nat :: w.pc.cur <= i && Unreturned(h, w.filter, w.buffer.events, i) && CanPass(w.buffer, limit, i)
  }

  predicate CanPass(b: Buffer, limit: nat, i: nat) {
    |b.events| < limit || (b.events != [] && i + 1 < b.events[|b.events| - 1].revision)
  }

  // -------------------------------------------------- behind, so possible

  lemma MissedGapped(n: Node, id: nat, w: Watcher)
    requires NodeInv(n) && AnswersEvents(n, id) && w == n.watchers[id]
    ensures Gapped(n, id) <==> w.aux.missed
  {
    AnswerOK(n, id, w, w.pc.out);
    if w.aux.missed {
      GapAnswer(n.stream, w, w.pc.out, n.store.revision);
    } else {
      GoodAnswer(n.stream, w, w.pc.out, n.store.revision);
    }
  }

  /** Everything matching in (cur, level] is in the buffer. */
  lemma OfferedThere(h: seq<WatchEvent>, w: Watcher, i: nat)
    requires BufferOK(h, w) && !w.buffer.overflow && w.aux.base <= i < w.aux.level && Matches(w.filter, h[i])
    ensures h[i] in w.buffer.events
  {
    var part := h[w.aux.base..w.aux.level];
    assert part[i - w.aux.base] == h[i];
    SelectMember(part, w.filter, h[i]);
    assert h[i] in Offered(h, w);
  }

  lemma OfferedBelow(h: seq<WatchEvent>, w: Watcher)
    requires Numbered(h, 0) && BufferOK(h, w) && !w.buffer.overflow && !w.aux.missed
    ensures forall e :: e in w.buffer.events ==> e.revision <= w.aux.level
  {
    assert w.buffer.events == Offered(h, w);
    forall e | e in w.buffer.events ensures e.revision <= w.aux.level { OfferedMember(h, w, e); }
  }

  /** A watcher that is behind without having buffered past the gap was overtaken, and has room. */
  lemma BehindHeld(h: seq<WatchEvent>, w: Watcher, limit: nat)
    requires Numbered(h, 0) && w.pc.Waiting? && w.aux.base <= w.pc.cur && |w.buffer.events| <= limit
    requires BufferOK(h, w) && SkipOK(h, w) && LevelOK(h, 0, w) && !w.aux.missed && Behind(h, w, limit)
    ensures w.aux.skip > 0 && |w.buffer.events| < limit
  {
    var i: nat :| w.pc.cur <= i && Unreturned(h, w.filter, w.buffer.events, i) && CanPass(w.buffer, limit, i);
    OfferedBelow(h, w);
    if i < w.aux.level { OfferedThere(h, w, i); }
    if w.buffer.events != [] { assert w.buffer.events[|w.buffer.events| - 1] in w.buffer.events; }
  }

  function KeyFor(filter: string): string { if filter == "" then "k" else filter }

  /** A put the watcher watches for, committed and pushed to it. */
  lemma PutAndPush(start: Node, n: Node, id: nat, w: Watcher) returns (steps: seq<Step>, m: Node)
    requires n == start && n.applier.Idle? && HubOK(n) && At(n, id) && w == n.watchers[id] && w.pc.Waiting?
    requires w.aux.skip > 0 && !w.buffer.overflow && |w.buffer.events| < n.limit
    ensures Leads(start, steps, m) && NoInstall(steps) && At(m, id) && m.watchers[id].pc == w.pc
    ensures m.watchers[id].from == w.from && m.watchers[id].aux.missed
    ensures m.watchers[id].buffer.events != [] && !m.watchers[id].buffer.overflow
  {
    var key := KeyFor(w.filter);
    OnePut(n.store, key, "z");
    var es := Apply(n.store, Put(key, "z"), true).1.events;
    assert id in n.waiters;
    steps, m := Advance(start, [], n, ApplyCmd(Put(key, "z"), true));
    steps, m := Advance(start, steps, m, CopyWaiters);
    steps, m := PushThrough(start, steps, m, id);
    PushAllOrNothing(w.buffer, w.filter, es, n.limit);
    SelectOne(es[0], w.filter);
  }

  lemma BehindGaps(n: Node, id: nat, w: Watcher) returns (more: seq<Step>, m: Node)
    requires NodeInv(n) && n.applier.Idle? && At(n, id) && w == n.watchers[id] && w.pc.Waiting? && w.from > 0
    requires Behind(n.stream, w, n.limit)
    ensures Leads(n, more, m) && NoInstall(more) && Gapped(m, id)
  {
    WaitingFacts(n, id, w);
    if w.aux.missed {
      more, m := [], n;
      MissedHolds(n.stream, w);
    } else {
      BehindHeld(n.stream, w, n.limit);
      more, m := PutAndPush(n, n, id, w);
    }
    more, m := Leave(n, more, m, id);
    RunKeepsInv(n, more);
    MissedGapped(m, id, m.watchers[id]);
  }

  lemma MissedHolds(h: seq<WatchEvent>, w: Watcher)
    requires BufferOK(h, w) && !w.buffer.overflow && w.aux.missed
    ensures w.buffer.events != [] && w.aux.skip < w.buffer.events[|w.buffer.events| - 1].revision
  {
  }

  lemma WaitingFacts(n: Node, id: nat, w: Watcher)
    requires NodeInv(n) && n.applier.Idle? && At(n, id) && w == n.watchers[id] && w.pc.Waiting? && w.from > 0
    ensures var h := n.stream;
            && Numbered(h, 0) && BufferOK(h, w) && SkipOK(h, w) && LevelOK(h, 0, w)
            && w.aux.base <= w.pc.cur <= |h| && |w.buffer.events| <= n.limit && id < n.nextId
  {
    assert WatcherOK(n.stream, n.store.compactRev, n.limit, Lag(n, id), Due(n, id), w);
  }

  // ------------------------------------------------- not behind, so never

  /** No gap in the buffer, and none to come without another snapshot. */
  predicate Safe(w: Watcher, limit: nat) {
    match w.pc
    case Waiting(_) => w.buffer.overflow || (!w.aux.missed && (w.aux.skip > 0 ==> |w.buffer.events| == limit))
    case Draining(_) => w.buffer.overflow || (!w.aux.missed && (w.aux.skip > 0 ==> |w.buffer.events| == limit))
    case Closing(out) => out.Found? ==> !w.aux.missed
    case _ => false
  }

  lemma NotBehindSafe(h: seq<WatchEvent>, w: Watcher, limit: nat)
    requires Numbered(h, 0) && w.pc.Waiting? && |w.buffer.events| <= limit
    requires BufferOK(h, w) && SkipOK(h, w) && !Behind(h, w, limit)
    ensures Safe(w, limit)
  {
    if !w.buffer.overflow && w.aux.skip > 0 {
      var i := SkippedEvent(h, w);
      if w.aux.missed { MissedHolds(h, w); }
      assert !CanPass(w.buffer, limit, i);
    }
  }

  lemma SafePush(w: Watcher, es: seq<WatchEvent>, limit: nat, revision: nat)
    requires Safe(w, limit) && |w.buffer.events| <= limit
    ensures Safe(OnPush(w, es, limit, revision), limit)
  {
    PushAllOrNothing(w.buffer, w.filter, es, limit);
    PushedOverflow(w.buffer, w.filter, es, limit);
  }

  lemma SafeStep(n: Node, st: Step, id: nat)
    requires Enabled(n, st) && At(n, id) && At(Next(n, st), id) && id < n.nextId && !st.Install?
    requires |n.watchers[id].buffer.events| <= n.limit && Safe(n.watchers[id], n.limit)
    ensures Safe(Next(n, st).watchers[id], n.limit)
  {
    if st == PushNext {
      SafePush(n.watchers[id], n.applier.es, n.limit, n.store.revision);
    }
  }

  lemma BufferFits(n: Node, id: nat)
    requires NodeInv(n) && At(n, id)
    ensures |n.watchers[id].buffer.events| <= n.limit
  {
  }

  lemma {:induction false} SafeRun(n: Node, steps: seq<Step>, m: Node, id: nat)
    requires NodeInv(n) && Leads(n, steps, m) && NoInstall(steps) && At(n, id) && At(m, id) && id < n.nextId
    requires Safe(n.watchers[id], n.limit)
    ensures Safe(m.watchers[id], n.limit)
  {
    if steps == [] {
    } else {
      var pre, st := steps[..|steps| - 1], steps[|steps| - 1];
      var u := Exec(n, pre);
      RunGrows(n, pre);
      StillThere(u, st, id);
      SafeRun(n, pre, u, id);
      RunKeepsInv(n, pre);
      BufferFits(u, id);
      SafeStep(u, st, id);
    }
  }

  lemma NotBehindNoGap(n: Node, id: nat, w: Watcher, more: seq<Step>, m: Node)
    requires NodeInv(n) && n.applier.Idle? && At(n, id) && w == n.watchers[id] && w.pc.Waiting? && w.from > 0
    requires !Behind(n.stream, w, n.limit) && Leads(n, more, m) && NoInstall(more) && AnswersEvents(m, id)
    ensures !Gapped(m, id)
  {
    WaitingFacts(n, id, w);
    NotBehindSafe(n.stream, w, n.limit);
    SafeRun(n, more, m, id);
    RunKeepsInv(n, more);
    MissedGapped(m, id, m.watchers[id]);
  }

  // ----------------------------------------------------------- the theorems

  /** From an idle node, a waiting watcher can answer with a gap, without a further
      snapshot, if and only if it is behind. */
  lemma GapIffBehind(n: Node, id: nat, w: Watcher)
    requires NodeInv(n) && n.applier.Idle? && At(n, id) && w == n.watchers[id] && w.pc.Waiting? && w.from > 0
    ensures (exists more, m :: Leads(n, more, m) && NoInstall(more) && Gapped(m, id)) <==> Behind(n.stream, w, n.limit)
  {
    if Behind(n.stream, w, n.limit) {
      var more, m := BehindGaps(n, id, w);
    } else if more, m :| Leads(n, more, m) && NoInstall(more) && Gapped(m, id) {
      NotBehindNoGap(n, id, w, more, m);
    }
  }

  /** For the first snapshot that could overtake it, a watcher is behind exactly if
      the snapshot brings a matching event and its buffer is neither full nor overflowed. */
  lemma FirstInstall(h: seq<WatchEvent>, h': seq<WatchEvent>, w: Watcher, limit: nat)
    requires Numbered(h', 0) && h <= h' && w.pc.Waiting? && w.aux.base <= w.pc.cur <= |h| && |w.buffer.events| <= limit
    requires BufferOK(h, w) && w.aux.skip == 0 && !w.aux.missed && w.aux.level == |h|
    ensures Behind(h', w, limit) <==>
            Select(h'[|h|..], w.filter) != [] && !w.buffer.overflow && |w.buffer.events| < limit
  {
    if !w.buffer.overflow {
      OfferedBelow(h, w);
      assert h'[|h|..|h'|] == h'[|h|..];
      if Select(h'[|h|..], w.filter) != [] {
        var i := SelectSome(h', w.filter, |h|, |h'|);
        assert Unreturned(h', w.filter, w.buffer.events, i);
      }
      if i: nat :| w.pc.cur <= i && Unreturned(h', w.filter, w.buffer.events, i) && CanPass(w.buffer, limit, i) {
        FirstMissing(h, h', w, limit, i);
      }
    }
  }

  lemma FirstMissing(h: seq<WatchEvent>, h': seq<WatchEvent>, w: Watcher, limit: nat, i: nat)
    requires Numbered(h', 0) && h <= h' && w.pc.Waiting? && w.aux.base <= w.pc.cur <= i && !w.buffer.overflow
    requires BufferOK(h, w) && !w.aux.missed && w.aux.level == |h|
    requires Unreturned(h', w.filter, w.buffer.events, i) && CanPass(w.buffer, limit, i)
    ensures Select(h'[|h|..], w.filter) != [] && |w.buffer.events| < limit
  {
    OfferedBelow(h, w);
    if i < |h| { OfferedThere(h, w, i); }
    assert h'[|h|..][i - |h|] == h'[i];
    SelectMember(h'[|h|..], w.filter, h'[i]);
    if w.buffer.events != [] { assert w.buffer.events[|w.buffer.events| - 1] in w.buffer.events; }
  }

  /** After an install over a waiting watcher, some continuation without a further
      snapshot answers with a gap if and only if the watcher is then behind. */
  lemma GapAfterInstall(limit: nat, steps: seq<Step>, n: Node, id: nat, st: Step, n': Node)
    requires Reached(limit, steps, n) && st.Install? && Enabled(n, st) && n' == Next(n, st)
    requires At(n, id) && n.watchers[id].pc.Waiting? && n.watchers[id].from > 0
    ensures (exists more, m :: Leads(n', more, m) && NoInstall(more) && Gapped(m, id)) <==>
            Behind(n'.stream, n'.watchers[id], n'.limit)
  {
    ReachableInv(limit, steps, n);
    StepKeeps(n, st);
    GapIffBehind(n', id, n'.watchers[id]);
  }

  /** And if no earlier snapshot overtook it: if and only if the snapshot brings a
      matching event and the buffer is neither full nor overflowed. */
  lemma InstallGapExactly(limit: nat, steps: seq<Step>, n: Node, id: nat, st: Step, n': Node, w: Watcher)
    requires Reached(limit, steps, n) && st.Install? && Enabled(n, st) && n' == Next(n, st)
    requires At(n, id) && w == n.watchers[id] && w.pc.Waiting? && w.from > 0
    requires !Overtaken(NewNode(limit), steps, id)
    ensures (exists more, m :: Leads(n', more, m) && NoInstall(more) && Gapped(m, id)) <==>
            Select(st.history[|n.stream|..], w.filter) != [] && !w.buffer.overflow && |w.buffer.events| < n.limit
  {
    GapAfterInstall(limit, steps, n, id, st, n');
    SkipOrigin(limit, steps, n, id);
    ReachableInv(limit, steps, n);
    WaitingFacts(n, id, w);
    FirstInstall(n.stream, st.history, w, n.limit);
    SameBehind(n.stream, st.history, w, n'.watchers[id], n.limit);
  }

  lemma SameBehind(h: seq<WatchEvent>, h': seq<WatchEvent>, w: Watcher, w': Watcher, limit: nat)
    requires w.pc.Waiting? && w' == w.(aux := w'.aux)
    ensures Behind(h', w', limit) <==> Behind(h', w, limit)
  {
  }

  // ------------------------------------------------------ a concrete loss

  const A1: WatchEvent := WatchEvent(1, "a", "x", 1, "PUT")
  const A2: WatchEvent := WatchEvent(2, "a", "y", 2, "PUT")
  const SNAPSHOT: SnapshotData := SnapshotData(2, [KV("a", "y", 2, 2, false)], [])

  const PREFIX: seq<RaftCmd> := [Put("a", "x"), Put("a", "y")]

  /** The snapshot is what a peer that has applied PREFIX exports. */
  lemma PeerSnapshot()
    ensures Stream(PREFIX) == [A1, A2] && Exports(SNAPSHOT, Run(PREFIX))
  {
    var k1, k2 := KV("a", "x", 1, 1, false), KV("a", "y", 2, 2, false);
    assert [] + [Put("a", "x")] == [Put("a", "x")] && [Put("a", "x")] + [Put("a", "y")] == PREFIX;
    RunSnoc([], Put("a", "x"));
    RunSnoc([Put("a", "x")], Put("a", "y"));
    OnePut(EMPTY, "a", "x");
    SingleWrite(EMPTY, k1);
    var s := Run([Put("a", "x")]);
    assert s == State(map["a" := k1], map[1 := k1], map[], 1, 0);
    OnePut(s, "a", "y");
    SingleWrite(s, k2);
  }

  lemma SnapshotLoads()
    ensures Inv(Load(SNAPSHOT)) && Recorded([A1, A2], Load(SNAPSHOT))
  {
    var kv := KV("a", "y", 2, 2, false);
    assert [kv][..0] == [];
    assert Load(SNAPSHOT) == State(map["a" := kv], map[2 := kv], map[], 2, 2);
  }

  /** A client at 1 waits on key a of an idle node that has one write. */
  lemma WaiterAtOne() returns (steps: seq<Step>, n: Node)
    ensures Reached(8, steps, n) && n.applier.Idle? && n.plan.None? && n.limit == 8
    ensures n.applied == [Put("a", "x")] && n.stream == [A1]
    ensures n.watchers == map[0 := EnterHub(n, Fresh("a", 1)).(pc := Waiting(1))]
  {
    steps, n := FirstWrite("a", "x");
    steps, n := EnterWait(NewNode(8), steps, n, "a", 1);
  }

  /** A peer's snapshot brings it revision 2 of the key. */
  lemma InstallOverWaiter() returns (steps: seq<Step>, n: Node)
    ensures Reached(8, steps, n) && n.applier.Idle? && At(n, 0) && n.stream == [A1, A2] && n.limit == 8
    ensures Install(PREFIX, [A1, A2], SNAPSHOT) in steps
    ensures var w := n.watchers[0];
            w.filter == "a" && w.from == 1 && w.pc == Waiting(1) && w.buffer == Buffer([], false)
  {
    steps, n := WaiterAtOne();
    SnapshotLoads();
    assert n.applied <= PREFIX && n.stream <= [A1, A2];
    steps, n := Advance(NewNode(8), steps, n, Install(PREFIX, [A1, A2], SNAPSHOT));
  }

  /** Then revision 3 is written and pushed, and the answer starts behind the gap.
      The snapshot is one a peer exports, with the history of its own log. */
  lemma InstallLeavesGap() returns (steps: seq<Step>, n: Node)
    ensures Reached(8, steps, n) && Gapped(n, 0)
    ensures Install(PREFIX, Stream(PREFIX), SNAPSHOT) in steps && Exports(SNAPSHOT, Run(PREFIX))
  {
    steps, n := InstallOverWaiter();
    ReachableInv(8, steps, n);
    PeerSnapshot();
    var w := n.watchers[0];
    assert Unreturned([A1, A2], "a", [], 1) && CanPass(w.buffer, n.limit, 1);
    var more, m := BehindGaps(n, 0, w);
    steps, n := Then(NewNode(8), steps, n, more, m);
  }

  lemma {:induction false} Then(start: Node, steps: seq<Step>, n: Node, more: seq<Step>, m: Node)
    returns (steps': seq<Step>, m': Node)
    requires Leads(start, steps, n) && Leads(n, more, m)
    ensures Leads(start, steps', m') && m' == m && steps <= steps'
  {
    if more == [] {
      steps', m' := steps, n;
    } else {
      var pre := more[..|more| - 1];
      steps', m' := Then(start, steps, n, pre, Exec(n, pre));
      steps', m' := Advance(start, steps', m', more[|more| - 1]);
    }
  }
}
