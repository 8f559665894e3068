/** Schedules that show each kind of answer: on any node where the source promises it,
    or from an empty one (src/watch/watch_hub.cpp). */
module WatchRuns {
  import opened Records
  import opened Mvcc
  import opened History
  import opened Hub
  import opened WatchNode
  import opened WatchTheorems
  import opened Schedules
  import opened WatchLimits
  import opened Laws

  // ------------------------------------------------------------ from now on

  /** On any idle node: a watcher from now on enters the wait loop at once. */
  lemma StartFromNow(start: Node, steps: seq<Step>, n: Node, filter: string) returns (steps': seq<Step>, n': Node)
    requires Leads(start, steps, n)
    ensures Leads(start, steps', n') && Joins(n, n', EnterHub(n, Fresh(filter, 0)))
  {
    steps', n' := Advance(start, steps, n, Start(filter, 0));
    assert n'.watchers == n.watchers[n.nextId := Fresh(filter, 0)];
    steps', n' := Advance(start, steps', n', Register(n.nextId));
  }

  lemma OneMatch(e: WatchEvent, filter: string, limit: nat)
    requires Matches(filter, e) && limit > 0
    ensures PushAll(Buffer([], false), filter, [e], limit) == Buffer([e], false)
  {
    SelectOne(e, filter);
    PushAllOrNothing(Buffer([], false), filter, [e], limit);
    assert [] + [e] == [e];
  }

  /** The only waiter gets the only event, and leaves with it. */
  lemma DeliverOne(start: Node, steps: seq<Step>, n: Node, w: Watcher) returns (steps': seq<Step>, n': Node)
    requires Leads(start, steps, n) && n.applier == Committed([E1]) && n.waiters == [0] && n.limit == 8
    requires At(n, 0) && w == n.watchers[0] && w.pc == Waiting(0) && w.filter == "a" && w.buffer == Buffer([], false)
    requires w.aux.skip == 0
    ensures Leads(start, steps', n') && Enabled(n', Return(0)) && steps <= steps'
    ensures n'.watchers[0].from == w.from && AnswerOf(n'.watchers[0].pc.out, n'.store.revision) == Answer(OK, [E1], 1)
  {
    steps', n' := Advance(start, steps, n, CopyWaiters);
    steps', n' := Advance(start, steps', n', PushNext);
    OneMatch(E1, "a", 8);
    assert n'.watchers[0].buffer == Buffer([E1], false) && n'.watchers[0].pc == Waiting(0);
    steps', n' := Leave(start, steps', n', 0);
  }

  /** A put to a watched key after the registration is delivered with its revision as anchor. */
  lemma FromNowDelivers() returns (steps: seq<Step>, n: Node)
    ensures Reached(8, steps, n) && Enabled(n, Return(0)) && n.watchers[0].from == 0
    ensures AnswerOf(n.watchers[0].pc.out, n.store.revision) == Answer(OK, [E1], 1)
  {
    steps, n := [], NewNode(8);
    steps, n := StartFromNow(NewNode(8), steps, n, "a");
    OnePut(EMPTY, "a", "x");
    steps, n := Advance(NewNode(8), steps, n, ApplyCmd(Put("a", "x"), true));
    steps, n := DeliverOne(NewNode(8), steps, n, n.watchers[0]);
  }

  lemma CommittedFirst() returns (steps: seq<Step>, n: Node)
    ensures Reached(8, steps, n) && |steps| == 3 && steps[0] == ApplyCmd(Put("a", "x"), true) && steps[2] == Register(0)
    ensures n.applier == Committed([E1]) && n.limit == 8 && n.waiters == [0] && At(n, 0)
    ensures n.watchers[0].pc == Waiting(0) && n.watchers[0].from == 0 && n.watchers[0].filter == "a"
    ensures n.watchers[0].buffer == Buffer([], false) && n.watchers[0].aux.skip == 0
  {
    steps, n := [], NewNode(8);
    OnePut(EMPTY, "a", "x");
    steps, n := Advance(NewNode(8), steps, n, ApplyCmd(Put("a", "x"), true));
    steps, n := Advance(NewNode(8), steps, n, Start("a", 0));
    steps, n := Advance(NewNode(8), steps, n, Register(0));
  }

  /** So is one that was committed, but not broadcast, before the registration. */
  lemma EarlierCommitReturned() returns (steps: seq<Step>, n: Node)
    ensures Reached(8, steps, n) && Enabled(n, Return(0)) && n.watchers[0].from == 0
    ensures |steps| > 2 && steps[0] == ApplyCmd(Put("a", "x"), true) && steps[2] == Register(0)
    ensures AnswerOf(n.watchers[0].pc.out, n.store.revision) == Answer(OK, [E1], 1)
  {
    steps, n := CommittedFirst();
    steps, n := DeliverOne(NewNode(8), steps, n, n.watchers[0]);
  }

  lemma TwoOverflow()
    ensures PushAll(Buffer([], false), "", [E1, E2], 1).overflow
  {
    assert [E1, E2] == [E1] + [E2];
    SelectConcat([E1], [E2], "");
    SelectOne(E1, "");
    SelectOne(E2, "");
    PushAllOrNothing(Buffer([], false), "", [E1, E2], 1);
  }

  /** Two matching events do not fit a buffer of one: the slow consumer gets an error
      and none of them. */
  lemma OverflowAnswers() returns (steps: seq<Step>, n: Node)
    ensures Reached(1, steps, n) && Enabled(n, Return(0)) && n.watchers[0].from == 0
    ensures AnswerOf(n.watchers[0].pc.out, n.store.revision) == Answer(INTERNAL, [], 2)
  {
    steps, n := [], NewNode(1);
    steps, n := StartFromNow(NewNode(1), steps, n, "");
    BatchOfTwo();
    steps, n := Advance(NewNode(1), steps, n, ApplyCmd(BatchPut([("a", "x"), ("b", "y")]), true));
    assert n.applier == Committed([E1, E2]) && n.store.revision == 2;
    steps, n := Advance(NewNode(1), steps, n, CopyWaiters);
    steps, n := Advance(NewNode(1), steps, n, PushNext);
    TwoOverflow();
    steps, n := Leave(NewNode(1), steps, n, 0);
  }

  // ---------------------------------------------------- from a past revision

  /** Any node refuses a watch from below its compact_rev. */
  lemma CompactedAnswers(start: Node, steps: seq<Step>, n: Node, filter: string, from: nat)
    returns (steps': seq<Step>, n': Node)
    requires Leads(start, steps, n) && 0 < from < n.store.compactRev
    ensures Leads(start, steps', n') && Enabled(n', Return(n.nextId)) && n'.watchers[n.nextId].from == from
    ensures AnswerOf(n'.watchers[n.nextId].pc.out, n'.store.revision) == Answer(COMPACTED, [], n.store.revision)
  {
    steps', n' := Advance(start, steps, n, Start(filter, from));
    steps', n' := Advance(start, steps', n', CheckCompacted(n.nextId));
  }

  lemma StoredReplay(n: Node, filter: string, from: nat)
    requires Inv(n.store) && Recorded(n.stream, n.store) && n.store.compactRev <= from <= |n.stream|
    ensures EventsIn(n.store.hist, from, n.store.revision, filter) == Select(n.stream[from..], filter)
  {
    forall r | from < r <= n.store.revision ensures Mirrors(n.store.hist, n.stream, r) {
      HistoryIsStream(n.store, n.stream, r);
    }
    EventsInSelect(n.store.hist, n.stream, from, |n.stream|, filter);
    assert n.stream[from..|n.stream|] == n.stream[from..];
  }

  lemma ServedAnswer(news: seq<WatchEvent>, limit: nat, es: seq<WatchEvent>, revision: nat)
    requires news != [] && limit > 0 && es == if |news| <= limit then news else news[..limit]
    ensures Cut(news, limit) == es != []
    ensures AnswerOf(Found(es), revision) == Answer(OK, es, es[|es| - 1].revision)
  {
  }

  /** On any node that has matching news for `from`, there is a schedule that serves
      it from history: the first `limit` matching events above `from`. */
  lemma ReplayServes(start: Node, steps: seq<Step>, n: Node, filter: string, from: nat, news: seq<WatchEvent>,
                     es: seq<WatchEvent>)
    returns (steps': seq<Step>, n': Node)
    requires Leads(start, steps, n) && Inv(n.store) && Recorded(n.stream, n.store) && n.limit > 0
    requires 0 < from && n.store.compactRev <= from <= |n.stream|
    requires news == Select(n.stream[from..], filter) && news != []
    requires es == if |news| <= n.limit then news else news[..n.limit]
    ensures Leads(start, steps', n') && Enabled(n', Return(n.nextId)) && n'.watchers[n.nextId].from == from
    ensures es != [] &&
            AnswerOf(n'.watchers[n.nextId].pc.out, n'.store.revision) == Answer(OK, es, es[|es| - 1].revision)
  {
    StoredReplay(n, filter, from);
    ServedAnswer(news, n.limit, es, n.store.revision);
    steps', n' := ServeStored(start, steps, n, filter, from, news, Found(es));
    ServedAnswer(news, n.limit, es, n'.store.revision);
  }

  lemma ServeStored(start: Node, steps: seq<Step>, n: Node, filter: string, from: nat, news: seq<WatchEvent>, out: Outcome)
    returns (steps': seq<Step>, n': Node)
    requires Leads(start, steps, n) && n.limit > 0 && 0 < from && n.store.compactRev <= from <= n.store.revision
    requires news == EventsIn(n.store.hist, from, n.store.revision, filter) && news != [] && out == Found(Cut(news, n.limit))
    ensures Leads(start, steps', n') && Enabled(n', Return(n.nextId))
    ensures n'.watchers[n.nextId].from == from && n'.watchers[n.nextId].pc == Closing(out)
  {
    steps', n' := EnterList(start, steps, n, filter, from);
    steps', n' := Serve(start, steps', n', n.nextId, n'.watchers[n.nextId], news, out);
    steps', n' := Advance(start, steps', n', Unregister(n.nextId));
  }

  /** From registration to an outcome, when the replay finds something. */
  lemma Serve(start: Node, steps: seq<Step>, n: Node, id: nat, w: Watcher, news: seq<WatchEvent>, out: Outcome)
    returns (steps': seq<Step>, n': Node)
    requires Leads(start, steps, n) && At(n, id) && w == n.watchers[id] && w.pc.Reading? && n.limit > 0
    requires n.store.compactRev <= w.from && news != [] && out == Found(Cut(news, n.limit))
    requires news == EventsIn(n.store.hist, w.from, n.store.revision, w.filter)
    ensures Leads(start, steps', n')
    ensures n' == n.(watchers := n.watchers[id := w.(pc := Leaving(out))])
  {
    var pinned := w.(pc := Pinned(n.store.revision, n.store.hist));
    steps', n' := Advance(start, steps, n, ReadRevision(id));
    steps', n' := Advance(start, steps', n', PinIterator(id));
    assert n' == n.(watchers := n.watchers[id := pinned]);
    steps', n' := Advance(start, steps', n', FinishReplay(id));
  }

  // ------------------------------------------------------------- compaction

  /** A put on a node without waiters, committed and broadcast to nobody. */
  lemma PutUnwatched(start: Node, steps: seq<Step>, n: Node, key: string, value: string)
    returns (steps': seq<Step>, n': Node)
    requires Leads(start, steps, n) && n.applier.Idle? && n.waiters == []
    ensures Leads(start, steps', n') && n'.applier.Idle? && n'.waiters == []
    ensures n'.plan == n.plan && n'.nextId == n.nextId
    ensures var s := n.store;
            var kv := KV(key, value, if key in s.main then s.main[key].version + 1 else 1, s.revision + 1, false);
            n'.store == State(s.main[key := kv], s.hist[s.revision + 1 := kv], s.cfg, s.revision + 1, s.compactRev)
  {
    PutLaw(n.store, key, value);
    steps', n' := Advance(start, steps, n, ApplyCmd(Put(key, value), true));
    steps', n' := Advance(start, steps', n', CopyWaiters);
    steps', n' := Advance(start, steps', n', PushNext);
  }

  function Version(i: nat, value: string): KV { KV("a", value, i, i, false) }

  /** What compacting three versions of a key down to one leaves. */
  lemma ThreeToOne(s: State)
    requires s == State(map["a" := Version(3, "z")],
                        map[1 := Version(1, "x"), 2 := Version(2, "y"), 3 := Version(3, "z")], map[], 3, 0)
    ensures Compact(s, Victims(s, 1)) == State(s.main, map[3 := Version(3, "z")], map[], 3, 2)
  {
    assert Newer(s.hist, "a", 3, 3) == 0 && Newer(s.hist, "a", 2, 2) == 0 && Newer(s.hist, "a", 1, 1) == 0;
    assert Newer(s.hist, "a", 2, 3) == 1 && Newer(s.hist, "a", 1, 2) == 1 && Newer(s.hist, "a", 1, 3) == 2;
    var v := Victims(s, 1);
    assert v == map[1 := Version(1, "x"), 2 := Version(2, "y")];
    assert IsMax(2, v.Keys);
    assert v.Keys == {1, 2};
    assert s.hist - v.Keys == map[3 := Version(3, "z")];
  }

  lemma ThreePuts() returns (steps: seq<Step>, n: Node)
    ensures Reached(8, steps, n) && n.plan.None? && n.nextId == 0
    ensures n.store == State(map["a" := Version(3, "z")],
                             map[1 := Version(1, "x"), 2 := Version(2, "y"), 3 := Version(3, "z")], map[], 3, 0)
  {
    steps, n := [], NewNode(8);
    steps, n := PutUnwatched(NewNode(8), steps, n, "a", "x");
    steps, n := PutUnwatched(NewNode(8), steps, n, "a", "y");
    steps, n := PutUnwatched(NewNode(8), steps, n, "a", "z");
  }

  /** Three puts of a key, a compaction to one version: a client that stopped at
      revision 1 is sent to the present. */
  lemma CompactionRefusesOld() returns (steps: seq<Step>, n: Node)
    ensures Reached(8, steps, n) && Enabled(n, Return(0)) && n.watchers[0].from == 1
    ensures AnswerOf(n.watchers[0].pc.out, n.store.revision) == Answer(COMPACTED, [], 3)
  {
    steps, n := ThreePuts();
    ThreeToOne(n.store);
    steps, n := Advance(NewNode(8), steps, n, ScanHistory(1));
    steps, n := Advance(NewNode(8), steps, n, EraseHistory(true));
    steps, n := CompactedAnswers(NewNode(8), steps, n, "a", 1);
  }
}
