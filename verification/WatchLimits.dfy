/** Concrete schedules in which documented promises of the watch API fail. */
module WatchLimits {
  import opened Records
  import opened Mvcc
  import opened Hub
  import opened WatchNode
  import opened WatchTheorems
  import opened Schedules

  const E1: WatchEvent := WatchEvent(1, "a", "x", 1, "PUT")
  const E2: WatchEvent := WatchEvent(2, "b", "y", 1, "PUT")

  /** "No repetition", and "never a current_revision below from": both fail when a
      batch is committed but not yet broadcast at registration.  Here from = 2, the
      answer repeats revision 1 and sends the anchor back to 1. */
  lemma RedeliveryHappens() returns (steps: seq<Step>, n: Node)
    ensures Reached(8, steps, n) && AnswersEvents(n, 0) && n.watchers[0].from == 2
    ensures AnswerOf(n.watchers[0].pc.out, n.store.revision) == Answer(OK, [E1], 1)
  {
    var cmd := BatchPut([("a", "x"), ("b", "y")]);
    steps, n := [], NewNode(8);
    BatchOfTwo();
    steps, n := Advance(NewNode(8), steps, n, ApplyCmd(cmd, true));
    assert n.applier == Committed([E1, E2]) && n.store.revision == 2;
    steps, n := EnterWait(NewNode(8), steps, n, "a", 2);
    steps, n := Advance(NewNode(8), steps, n, CopyWaiters);
    assert n.applier == Pushing([E1, E2], [0]);
    steps, n := Advance(NewNode(8), steps, n, PushNext);
    PushBoth();
    assert n.watchers[0].buffer == Buffer([E1], false);
    steps, n := Leave(NewNode(8), steps, n, 0);
  }

  lemma PushBoth()
    ensures PushAll(Buffer([], false), "a", [E1, E2], 8) == Buffer([E1], false)
  {
    assert [E1, E2][1..] == [E2] && [E2][1..] == [];
    assert Matches("a", E1) && E2.key[0] == 'b' && !Matches("a", E2);
    assert [] + [E1] == [E1];
    assert PushAll(Buffer([E1], false), "a", [E2], 8) == PushAll(Buffer([E1], false), "a", [], 8);
  }

  lemma BatchOfTwo()
    ensures var (t, res) := Apply(EMPTY, BatchPut([("a", "x"), ("b", "y")]), true);
            res.events == [E1, E2] && t.revision == 2 && t.compactRev == 0
  {
    var recs := BatchRecords(EMPTY, [("a", "x"), ("b", "y")]);
    DecideChain(EMPTY, BatchPut([("a", "x"), ("b", "y")]));
    WriteAllCounters(EMPTY, recs);
    assert recs == [KV("a", "x", 1, 1, false), KV("b", "y", 1, 2, false)];
  }

  /** The other two ways the anchor falls below `from`: on any node behind a client,
      a failed catch-up answers with the lagging revision, a canceled one with 0. */
  lemma CatchUpFallsBack(start: Node, steps: seq<Step>, n: Node, filter: string, from: nat)
    returns (gaveUp: seq<Step>, m: Node, canceled: seq<Step>, m': Node)
    requires Leads(start, steps, n) && n.store.revision < from && n.store.compactRev <= from
    ensures Leads(start, gaveUp, m) && Enabled(m, Return(n.nextId)) && m.watchers[n.nextId].from == from
    ensures AnswerOf(m.watchers[n.nextId].pc.out, m.store.revision) == Answer(INTERNAL, [], n.store.revision)
    ensures Leads(start, canceled, m') && Enabled(m', Return(n.nextId)) && m'.watchers[n.nextId].from == from
    ensures AnswerOf(m'.watchers[n.nextId].pc.out, m'.store.revision) == Answer(OK, [], 0)
  {
    var id := n.nextId;
    var waiting, behind := ToCatchUp(start, steps, n, filter, from);
    gaveUp, m := Advance(start, waiting, behind, GiveUp(id));
    canceled, m' := Advance(start, waiting, behind, Cancel(id));
  }

  /** One write, committed and broadcast to nobody. */
  lemma FirstWrite(key: string, value: string) returns (steps: seq<Step>, n: Node)
    ensures Reached(8, steps, n)
    ensures n == NewNode(8).(applied := [Put(key, value)], stream := n.stream, store := n.store)
    ensures n.store.revision == 1 && n.store.compactRev == 0 && n.stream == [WatchEvent(1, key, value, 1, "PUT")]
  {
    steps, n := [], NewNode(8);
    OnePut(EMPTY, key, value);
    steps, n := Advance(NewNode(8), steps, n, ApplyCmd(Put(key, value), true));
    steps, n := Advance(NewNode(8), steps, n, CopyWaiters);
    steps, n := Advance(NewNode(8), steps, n, PushNext);
  }

  /** A watcher with an empty buffer on an idle node. */
  ghost predicate Quiet(n: Node, id: nat) {
    n.applier.Idle? && At(n, id) && n.watchers[id].pc.Waiting? && n.watchers[id].buffer == Buffer([], false)
  }

  /** A matching write that commits between Unregister and the revision read is
      always behind the anchor of the empty answer, and in no answer. */
  lemma LateWriteIsSkipped(start: Node, steps: seq<Step>, n: Node, id: nat, key: string, value: string)
    returns (steps': seq<Step>, n': Node, e: WatchEvent)
    requires Leads(start, steps, n) && Quiet(n, id) && (n.watchers[id].filter == "" || n.watchers[id].filter == key)
    ensures Leads(start, steps', n') && Enabled(n', Return(id)) && n'.watchers[id].from == n.watchers[id].from
    ensures AnswerOf(n'.watchers[id].pc.out, n'.store.revision) == Answer(OK, [], n.store.revision + 1)
    ensures n'.stream == n.stream + [e] && Matches(n.watchers[id].filter, e) && e.value == value
  {
    steps', n', e := LateWrite(start, steps, n, id, key, value);
    steps', n' := Advance(start, steps', n', ReadBuffer(id));
  }

  lemma LateWrite(start: Node, steps: seq<Step>, n: Node, id: nat, key: string, value: string)
    returns (steps': seq<Step>, n': Node, e: WatchEvent)
    requires Leads(start, steps, n) && Quiet(n, id)
    ensures Leads(start, steps', n') && At(n', id) && n'.store.revision == n.store.revision + 1
    ensures n'.watchers[id] == n.watchers[id].(pc := Draining(n.watchers[id].pc.cur))
    ensures n'.stream == n.stream + [e] && e.key == key && e.value == value
  {
    e := WatchEvent(n.store.revision + 1, key, value, NextVersion(n.store, key), "PUT");
    steps', n' := Advance(start, steps, n, Unregister(id));
    steps', n' := PutOnIdle(start, steps', n', key, value);
  }

  lemma PutOnIdle(start: Node, steps: seq<Step>, n: Node, key: string, value: string)
    returns (steps': seq<Step>, n': Node)
    requires Leads(start, steps, n) && n.applier.Idle?
    ensures Leads(start, steps', n') && n'.watchers == n.watchers && n'.store.revision == n.store.revision + 1
    ensures n'.stream ==
            n.stream + [WatchEvent(n.store.revision + 1, key, value, NextVersion(n.store, key), "PUT")]
  {
    OnePut(n.store, key, value);
    steps', n' := Advance(start, steps, n, ApplyCmd(Put(key, value), true));
  }

  /** "Resume from current_revision" after an empty answer loses a write: from = 1,
      nothing is returned, yet the anchor offered is 2 and revision 2 matches. */
  lemma EmptyAnswerLoses() returns (steps: seq<Step>, n: Node)
    ensures Reached(8, steps, n) && Enabled(n, Return(0)) && n.watchers[0].from == 1
    ensures AnswerOf(n.watchers[0].pc.out, n.store.revision) == Answer(OK, [], 2)
    ensures |n.stream| == 2 && Matches("a", n.stream[1])
  {
    steps, n := FirstWrite("a", "x");
    steps, n := EnterWait(NewNode(8), steps, n, "a", 1);
    var e;
    steps, n, e := LateWriteIsSkipped(NewNode(8), steps, n, 0, "a", "y");
  }
}
