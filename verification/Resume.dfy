/** Resuming over whole cluster runs: which runs leave a client with exactly the
    history it watches for, and why the theorems about one node hold of every node
    of a cluster (src/watch/watch_hub.cpp, src/raft/state_machine.cpp). */
module Resume {
  import opened Records
  import opened Mvcc
  import opened Replication
  import opened WatchNode
  import opened WatchTheorems
  import opened Schedules
  import opened Cluster

  // ------------------------------------------- runs that overtake a client

  /** The move installs a snapshot on the node the client is waiting on, past the
      hub, with an event the client watches for. */
  ghost predicate OvertakesClient(w: World, m: Move, k: nat) {
    && m.OnNode? && m.node in w.nodes && k in w.clients && w.clients[k].session.Some?
    && w.clients[k].session.value.0 == m.node
    && Overtakes(w.nodes[m.node], m.st, w.clients[k].session.value.1)
  }

  /** Some move of the run did. */
  ghost predicate ClientOvertaken(ms: seq<Move>, k: nat)
    requires Possible(ms)
  {
    ms != [] && (ClientOvertaken(ms[..|ms| - 1], k) ||
                 OvertakesClient(WorldAfter(ms[..|ms| - 1]), ms[|ms| - 1], k))
  }

  ghost predicate Untouched(n: Node, id: nat) {
    At(n, id) && n.watchers[id].aux.skip == 0 && !n.watchers[id].aux.missed
  }

  /** The client has accepted no answer with a gap, and its watch has none coming. */
  ghost predicate Clean(w: World, k: nat) {
    && k in w.clients && !w.clients[k].tainted
    && (w.clients[k].session.Some? ==>
          var (i, id) := w.clients[k].session.value;
          i in w.nodes && Untouched(w.nodes[i], id))
  }

  lemma UntouchedStep(n: Node, st: Step, id: nat)
    requires NodeInv(n) && Enabled(n, st) && Untouched(n, id) && st != Return(id) && !Overtakes(n, st, id)
    ensures Untouched(Next(n, st), id)
  {
    SkipFacts(n, id);
    StaysThere(n, st, id);
    SkipStep(n, st, id);
    MissedStep(n, st, id);
  }

  lemma StartUntouched(n: Node, filter: string, from: nat)
    requires HubOK(n)
    ensures Untouched(Next(n, Start(filter, from)), n.nextId)
    ensures forall id: nat :: Untouched(n, id) ==> Untouched(Next(n, Start(filter, from)), id)
  {
    assert !At(n, n.nextId);
  }

  /** One node moves on, the client's session stays. */
  lemma SameSession(w: World, i: nat, n: Node, k: nat, cs: map<nat, Client>)
    requires Clean(w, k) && i in w.nodes && k in cs && cs[k] == w.clients[k]
    requires forall id: nat :: w.clients[k].session == Some((i, id)) ==> Untouched(n, id)
    ensures Clean(w.(nodes := w.nodes[i := n], clients := cs), k)
  {
    var s := w.clients[k].session;
    assert s.Some? && s.value.0 == i ==> s == Some((i, s.value.1));
  }

  lemma NodeClean(w: World, i: nat, st: Step, k: nat, n: Node)
    requires i in w.nodes && n == w.nodes[i] && NodeInv(n) && Enabled(n, st) && !st.Return?
    requires Clean(w, k) && !OvertakesClient(w, OnNode(i, st), k)
    ensures Clean(w.(nodes := w.nodes[i := Next(n, st)]), k)
  {
    forall id: nat | w.clients[k].session == Some((i, id)) ensures Untouched(Next(n, st), id) {
      UntouchedStep(n, st, id);
    }
    SameSession(w, i, Next(n, st), k, w.clients);
  }

  lemma BeginClean(w: World, j: nat, i: nat, k: nat, n: Node, n': Node, c: Client)
    requires i in w.nodes && n == w.nodes[i] && HubOK(n) && n' == Next(n, Start(c.filter, c.anchor))
    requires j in w.clients && c == w.clients[j] && Clean(w, k)
    ensures Clean(w.(nodes := w.nodes[i := n'], clients := w.clients[j := c.(session := Some((i, n.nextId)))]), k)
  {
    StartUntouched(n, c.filter, c.anchor);
  }

  lemma BeginMoveClean(w: World, j: nat, i: nat, k: nat)
    requires NodesOK(w) && Allowed(w, Begin(j, i)) && Clean(w, k)
    ensures Clean(Perform(w, Begin(j, i)), k)
  {
    var n, c := w.nodes[i], w.clients[j];
    BeginClean(w, j, i, k, n, Next(n, Start(c.filter, c.anchor)), c);
  }

  lemma ReturnUntouched(n: Node, id: nat, other: nat)
    requires Enabled(n, Return(id)) && Untouched(n, other) && other != id
    ensures Untouched(Next(n, Return(id)), other)
  {
  }

  lemma FinishClean(w: World, j: nat, k: nat, i: nat, id: nat, n: Node, n': Node, c: Client)
    requires i in w.nodes && n == w.nodes[i] && Enabled(n, Return(id)) && n' == Next(n, Return(id))
    requires j in w.clients && w.clients[j].session == Some((i, id)) && Clean(w, k)
    requires j == k ==> c.session.None? && !c.tainted
    requires j != k ==> w.clients[j].session != w.clients[k].session
    ensures Clean(w.(nodes := w.nodes[i := n'], clients := w.clients[j := c]), k)
  {
    if j != k {
      forall x: nat | w.clients[k].session == Some((i, x)) ensures Untouched(n', x) { ReturnUntouched(n, id, x); }
      SameSession(w, i, n', k, w.clients[j := c]);
    }
  }

  lemma FinishMoveClean(w: World, j: nat, k: nat)
    requires ClientsOK(w) && Allowed(w, Finish(j)) && Clean(w, k)
    ensures Clean(Perform(w, Finish(j)), k)
  {
    var (i, id) := w.clients[j].session.value;
    var n := w.nodes[i];
    FinishClean(w, j, k, i, id, n, Next(n, Return(id)), Perform(w, Finish(j)).clients[j]);
  }

  /** Restarts end the sessions on their node; joins and the rest touch none. */
  lemma QuietMoveClean(w: World, m: Move, k: nat)
    requires Allowed(w, m) && Clean(w, k) && !m.OnNode? && !m.Begin? && !m.Finish?
    ensures Clean(Perform(w, m), k)
  {
  }

  lemma MoveClean(w: World, m: Move, k: nat)
    requires WorldInv(w) && Allowed(w, m) && Clean(w, k) && !OvertakesClient(w, m, k)
    ensures Clean(Perform(w, m), k)
  {
    match m
    case OnNode(i, st) => NodeClean(w, i, st, k, w.nodes[i]);
    case Begin(j, i) => BeginMoveClean(w, j, i, k);
    case Finish(j) => FinishMoveClean(w, j, k);
    case _ => QuietMoveClean(w, m, k);
  }

  lemma NewClientClean(w: World, m: Move, k: nat)
    requires Allowed(w, m) && k !in w.clients && k in Perform(w, m).clients
    ensures Clean(Perform(w, m), k)
  {
  }

  lemma {:induction false} RunClean(ms: seq<Move>, k: nat)
    requires Possible(ms) && k in WorldAfter(ms).clients && !ClientOvertaken(ms, k)
    ensures Clean(WorldAfter(ms), k)
  {
    if ms == [] {
    } else {
      var pre, m := ms[..|ms| - 1], ms[|ms| - 1];
      var w := WorldAfter(pre);
      if k in w.clients {
        RunClean(pre, k);
        RunInv(pre);
        MoveClean(w, m, k);
      } else {
        NewClientClean(w, m, k);
      }
    }
  }

  /** Resume over whole runs, across nodes: in every run of commits, applies,
      broadcasts, compactions, snapshots, installs, restarts and watch rounds on any
      node, a client that starts at a positive anchor and is not overtaken by a
      snapshot while it waits has received, repetitions dropped, exactly the matching
      history of (start, high], a prefix of all the matching committed history after
      its start. */
  lemma ResumeIsComplete(ms: seq<Move>, k: nat)
    requires Possible(ms) && k in WorldAfter(ms).clients && !ClientOvertaken(ms, k)
    ensures HasHistory(WorldAfter(ms), k)
  {
    RunClean(ms, k);
    UntaintedComplete(ms, k);
  }

  // ------------------------------------------------ what a round changes

  lemma {:induction false} AboveAll(es: seq<WatchEvent>, from: nat, e: WatchEvent)
    requires e in es && e.revision > from
    ensures e in Above(es, from)
  {
    var pre := es[..|es| - 1];
    assert es == pre + [es[|es| - 1]];
    if e in pre { AboveAll(pre, from, e); }
  }

  /** A round that ends with OK and events adds every event that is new to the client
      and moves its anchor; any other round changes nothing. */
  lemma RoundTakesNews(w: World, k: nat, i: nat, id: nat, c: Client, a: Answer)
    requires Allowed(w, Finish(k)) && c == w.clients[k] && c.session == Some((i, id))
    requires a == AnswerOf(w.nodes[i].watchers[id].pc.out, w.nodes[i].store.revision)
    ensures var c' := Perform(w, Finish(k)).clients[k];
            && c'.session == None && c'.filter == c.filter && c'.start == c.start && c.got <= c'.got
            && if a.code == OK && a.events != [] then
                 && c'.anchor == a.currentRevision
                 && c'.high == (if c.high < a.currentRevision then a.currentRevision else c.high)
                 && forall e :: e in a.events ==> e.revision <= c.high || e in c'.got
               else c'.anchor == c.anchor && c'.high == c.high && c'.got == c.got
  {
    forall e | e in a.events && e.revision > c.high ensures e in Above(a.events, c.high) {
      AboveAll(a.events, c.high, e);
    }
  }

  lemma ClientStep(w: World, m: Move, k: nat)
    requires Allowed(w, m) && k in w.clients
    ensures k in Perform(w, m).clients
    ensures var c, c' := w.clients[k], Perform(w, m).clients[k];
            c'.filter == c.filter && c'.start == c.start && c.high <= c'.high && c.got <= c'.got
    ensures !m.Finish? ==> Perform(w, m).clients[k].anchor == w.clients[k].anchor
  {
  }

  /** A client keeps its request and loses nothing it has received. */
  lemma {:induction false} ClientOnlyGrows(ms: seq<Move>, j: nat, k: nat)
    requires Possible(ms) && j <= |ms| && Possible(ms[..j]) && k in WorldAfter(ms[..j]).clients
    ensures k in WorldAfter(ms).clients
    ensures var c, c' := WorldAfter(ms[..j]).clients[k], WorldAfter(ms).clients[k];
            c'.filter == c.filter && c'.start == c.start && c.high <= c'.high && c.got <= c'.got
  {
    if j == |ms| {
      assert ms[..j] == ms;
    } else {
      assert ms[..|ms| - 1][..j] == ms[..j];
      ClientOnlyGrows(ms[..|ms| - 1], j, k);
      ClientStep(WorldAfter(ms[..|ms| - 1]), ms[|ms| - 1], k);
    }
  }

  // ------------------------------------ every node is a node on its own

  /** After any move a node has made at most one step, restarted or just joined. */
  lemma NodeMove(w: World, m: Move, i: nat) returns (st: Option<Step>)
    requires Allowed(w, m) && i in w.nodes && !(m.Restart? && m.node == i)
    ensures i in Perform(w, m).nodes
    ensures match st
            case None => Perform(w, m).nodes[i] == w.nodes[i]
            case Some(s) => Enabled(w.nodes[i], s) && Perform(w, m).nodes[i] == Next(w.nodes[i], s)
  {
    st := None;
    match m
    case OnNode(j, s) => if j == i { st := Some(s); }
    case Begin(k, j) => if j == i { st := Some(Start(w.clients[k].filter, w.clients[k].anchor)); }
    case Finish(k) => if w.clients[k].session.value.0 == i { st := Some(Return(w.clients[k].session.value.1)); }
    case _ =>
  }

  /** A reboot is the install of its snapshot on a fresh node. */
  lemma RebootReached(n: Node, snap: Snapshot) returns (steps: seq<Step>)
    requires n.limit > 0 && Tracks(Load(snap.data), Run(snap.prefix))
    ensures Reached(n.limit, steps, Reboot(n, snap))
  {
    TracksRecorded(Load(snap.data), snap.prefix);
    var m;
    var st := Install(snap.prefix, Stream(snap.prefix), snap.data);
    steps, m := Advance(NewNode(n.limit), [], NewNode(n.limit), st);
    assert m == Reboot(n, snap);
  }

  /** Every node of every possible cluster run is where some schedule leads from a
      fresh node, so whatever holds of reached nodes holds of it. */
  lemma {:induction false} NodesAreReached(ms: seq<Move>, i: nat) returns (limit: nat, steps: seq<Step>)
    requires Possible(ms) && i in WorldAfter(ms).nodes
    ensures Reached(limit, steps, WorldAfter(ms).nodes[i])
  {
    if ms == [] {
    } else {
      var pre, m := ms[..|ms| - 1], ms[|ms| - 1];
      var w := WorldAfter(pre);
      if m.Restart? && m.node == i {
        RunInv(pre);
        limit := w.nodes[i].limit;
        steps := RebootReached(w.nodes[i], m.snap);
      } else if i in w.nodes {
        limit, steps := NodesAreReached(pre, i);
        steps := StepReached(limit, steps, w, m, i);
      } else {
        limit, steps := JoinReached(w, m, i);
      }
    }
  }

  lemma StepReached(limit: nat, before: seq<Step>, w: World, m: Move, i: nat) returns (steps: seq<Step>)
    requires Allowed(w, m) && i in w.nodes && !(m.Restart? && m.node == i)
    requires Reached(limit, before, w.nodes[i])
    ensures i in Perform(w, m).nodes && Reached(limit, steps, Perform(w, m).nodes[i])
  {
    var st := NodeMove(w, m, i);
    steps := before;
    if st.Some? {
      var n;
      steps, n := Advance(NewNode(limit), before, w.nodes[i], st.value);
    }
  }

  lemma JoinReached(w: World, m: Move, i: nat) returns (limit: nat, steps: seq<Step>)
    requires Allowed(w, m) && i !in w.nodes && i in Perform(w, m).nodes
    ensures Reached(limit, steps, Perform(w, m).nodes[i])
  {
    assert m.Join? && m.node == i;
    limit, steps := m.limit, [];
  }
}
