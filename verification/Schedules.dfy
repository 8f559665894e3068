/** Building blocks for schedules: how a node can be driven from one state to
    another (src/watch/watch_hub.cpp, src/raft/state_machine.cpp). */
module Schedules {
  import opened Records
  import opened Mvcc
  import opened Hub
  import opened WatchNode
  import opened WatchTheorems

  lemma Advance(start: Node, steps: seq<Step>, n: Node, st: Step) returns (steps': seq<Step>, n': Node)
    requires Leads(start, steps, n) && Enabled(n, st)
    ensures Leads(start, steps', n') && n' == Next(n, st) && steps' == steps + [st]
  {
    steps', n' := steps + [st], Next(n, st);
    assert steps'[..|steps'| - 1] == steps;
  }

  /** No step of the schedule installs a snapshot. */
  ghost predicate NoInstall(steps: seq<Step>) {
    forall st :: st in steps ==> !st.Install?
  }

  function Fresh(filter: string, from: nat): Watcher {
    Watcher(filter, from, Registering, Buffer([], false), Aux([], 0, 0, [], 0, false))
  }

  /** n' differs from n by one more waiter, w; nothing else a step looks at. */
  ghost predicate Joins(n: Node, n': Node, w: Watcher) {
    && n'.applied == n.applied && n'.stream == n.stream && n'.store == n.store && n'.applier == n.applier && n'.plan == n.plan
    && n'.limit == n.limit && n'.waiters == n.waiters + [n.nextId]
    && n'.watchers == n.watchers[n.nextId := w]
  }

  lemma ToCatchUp(start: Node, steps: seq<Step>, n: Node, filter: string, from: nat)
    returns (steps': seq<Step>, n': Node)
    requires Leads(start, steps, n) && 0 < from && n.store.compactRev <= from
    ensures Leads(start, steps', n')
    ensures n' == n.(nextId := n.nextId + 1,
                     watchers := n.watchers[n.nextId := Fresh(filter, from).(pc := CatchingUp)])
  {
    steps', n' := Advance(start, steps, n, Start(filter, from));
    steps', n' := Advance(start, steps', n', CheckCompacted(n.nextId));
  }

  lemma EnterList(start: Node, steps: seq<Step>, n: Node, filter: string, from: nat)
    returns (steps': seq<Step>, n': Node)
    requires Leads(start, steps, n) && 0 < from && n.store.compactRev <= from <= n.store.revision
    ensures Leads(start, steps', n') && Joins(n, n', EnterHub(n, Fresh(filter, from)))
  {
    var id := n.nextId;
    steps', n' := ToCatchUp(start, steps, n, filter, from);
    steps', n' := Advance(start, steps', n', CaughtUp(id));
    assert n'.watchers == n.watchers[id := Fresh(filter, from)];
    steps', n' := Advance(start, steps', n', Register(id));
  }

  /** A watcher that is up to date finds nothing to replay and waits. */
  lemma EnterWait(start: Node, steps: seq<Step>, n: Node, filter: string, from: nat)
    returns (steps': seq<Step>, n': Node)
    requires Leads(start, steps, n) && 0 < from && n.store.compactRev <= from == n.store.revision && n.limit > 0
    ensures Leads(start, steps', n')
    ensures Joins(n, n', EnterHub(n, Fresh(filter, from)).(pc := Waiting(from)))
  {
    steps', n' := EnterList(start, steps, n, filter, from);
    assert EventsIn(n.store.hist, from, from, filter) == [];
    steps', n' := ReplayNothing(start, steps', n', n.nextId, n'.watchers[n.nextId]);
  }

  /** From registration to the wait loop, when the replay finds nothing. */
  lemma ReplayNothing(start: Node, steps: seq<Step>, n: Node, id: nat, w: Watcher)
    returns (steps': seq<Step>, n': Node)
    requires Leads(start, steps, n) && At(n, id) && w == n.watchers[id] && w.pc.Reading?
    requires ReplayOutcome(n, w.(pc := Pinned(n.store.revision, n.store.hist))) == Waiting(n.store.revision)
    ensures Leads(start, steps', n') && (NoInstall(steps) ==> NoInstall(steps'))
    ensures n' == n.(watchers := n.watchers[id := w.(pc := Waiting(n.store.revision))])
  {
    var pinned := w.(pc := Pinned(n.store.revision, n.store.hist));
    steps', n' := Advance(start, steps, n, ReadRevision(id));
    steps', n' := Advance(start, steps', n', PinIterator(id));
    assert n' == n.(watchers := n.watchers[id := pinned]);
    steps', n' := Advance(start, steps', n', FinishReplay(id));
  }

  /** A broadcast in progress reaches a waiter on its list. */
  lemma {:induction false} PushThrough(start: Node, steps: seq<Step>, n: Node, id: nat)
    returns (steps': seq<Step>, n': Node)
    requires Leads(start, steps, n) && n.applier.Pushing? && id in n.applier.todo && At(n, id)
    requires Distinct(n.applier.todo) && NoInstall(steps)
    ensures Leads(start, steps', n') && At(n', id) && NoInstall(steps')
    ensures n'.watchers[id] == OnPush(n.watchers[id], n.applier.es, n.limit, n.store.revision)
    ensures n'.stream == n.stream && n'.store == n.store
    decreases |n.applier.todo|
  {
    var todo := n.applier.todo;
    steps', n' := Advance(start, steps, n, PushNext);
    if todo[0] == id {
    } else {
      assert id in todo[1..];
      steps', n' := PushThrough(start, steps', n', id);
    }
  }

  /** A waiter's way out of the loop to an answer. */
  lemma Leave(start: Node, steps: seq<Step>, n: Node, id: nat) returns (steps': seq<Step>, n': Node)
    requires Leads(start, steps, n) && At(n, id) && n.watchers[id].pc.Waiting?
    ensures Leads(start, steps', n') && Enabled(n', Return(id)) && (NoInstall(steps) ==> NoInstall(steps'))
    ensures steps' == steps + [Unregister(id), ReadBuffer(id)]
    ensures n'.store == n.store && n'.stream == n.stream
    ensures var w := n.watchers[id];
            n'.watchers[id] == w.(pc := Closing(BufferOutcome(w.(pc := Draining(w.pc.cur)))))
  {
    steps', n' := Advance(start, steps, n, Unregister(id));
    steps', n' := Advance(start, steps', n', ReadBuffer(id));
  }

  /** One put makes one event under the next revision. */
  lemma OnePut(s: State, key: string, value: string)
    ensures var (t, res) := Apply(s, Put(key, value), true);
            && t.revision == s.revision + 1 && t.compactRev == s.compactRev
            && res.events == [WatchEvent(s.revision + 1, key, value, NextVersion(s, key), "PUT")]
  {
    DecideChain(s, Put(key, value));
    WriteAllCounters(s, [NewRecord(s, key, value, false)]);
  }
}
