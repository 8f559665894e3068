/** A cluster over one committed log: nodes apply, compact, broadcast, snapshot,
    install and restart on their own, and clients resume their watches on any
    node (src/raft/state_machine.cpp, src/watch/watch_hub.cpp).  Raft itself is
    the assumption that there is one growing log and every node applies a prefix. */
module Cluster {
  import opened Records
  import opened Mvcc
  import opened History
  import opened Replication
  import opened WatchNode
  import opened WatchSteps
  import opened WatchTheorems

  // ---------------------------------------------------------------- state

  datatype Snapshot = Snapshot(prefix: seq<RaftCmd>, data: SnapshotData)

  /** A resuming client: it moves its anchor only on OK answers with events and
      drops events at or below the highest revision it has. */
  datatype Client = Client(
    filter: string, start: nat, anchor: nat, high: nat, got: seq<WatchEvent>,
    session: Option<(nat, nat)>, tainted: bool)

  datatype World = World(
    log: seq<RaftCmd>, nodes: map<nat, Node>, snaps: set<Snapshot>, clients: map<nat, Client>)

  datatype Move =
    | Propose(cmd: RaftCmd)
    | Join(node: nat, limit: nat)
    | OnNode(node: nat, st: Step)
    | Save(node: nat, data: SnapshotData)
    | Restart(node: nat, snap: Snapshot)
    | Open(client: nat, filter: string, start: nat)
    | Begin(client: nat, node: nat)
    | Finish(client: nat)

  const INITIAL: World := World([], map[], {}, map[])

  // ---------------------------------------------------------------- moves

  ghost predicate Allowed(w: World, m: Move) {
    match m
    case Propose(_) => true
    case Join(i, _) => i !in w.nodes
    case OnNode(i, st) =>
      && i in w.nodes && !st.Start? && !st.Return? && Enabled(w.nodes[i], st)
      && (st.ApplyCmd? ==> |w.nodes[i].applied| < |w.log| && st.cmd == w.log[|w.nodes[i].applied|])
      // replicas agree only as long as writes succeed and rollbacks find their version
      && (st.ApplyCmd? ==> st.writeOk && Retained(w.nodes[i].store, Run(w.nodes[i].applied), st.cmd))
      && (st.Install? ==> Snapshot(st.prefix, st.data) in w.snaps && st.history == Stream(st.prefix))
    case Save(i, data) => i in w.nodes && Exports(data, w.nodes[i].store)
    case Restart(i, snap) => i in w.nodes && snap in w.snaps
    case Open(k, _, start) => k !in w.clients && start > 0
    case Begin(k, i) => k in w.clients && w.clients[k].session.None? && i in w.nodes
    case Finish(k) =>
      && k in w.clients && w.clients[k].session.Some?
      && var (i, id) := w.clients[k].session.value; i in w.nodes && Enabled(w.nodes[i], Return(id))
  }

  function Receive(c: Client, a: Answer, missed: bool): Client {
    if a.code == OK && a.events != []
    then c.(anchor := a.currentRevision, got := c.got + Above(a.events, c.high),
            high := Max(c.high, a.currentRevision), session := None, tainted := c.tainted || missed)
    else c.(session := None)
  }

  function Reboot(n: Node, snap: Snapshot): Node {
    Node(snap.prefix, Stream(snap.prefix), Load(snap.data), Idle, None, [], map[], 0, n.limit)
  }

  function Disconnect(c: Client, node: nat): Client {
    if c.session.Some? && c.session.value.0 == node then c.(session := None) else c
  }

  ghost function Perform(w: World, m: Move): World
    requires Allowed(w, m)
  {
    match m
    case Propose(cmd) => w.(log := w.log + [cmd])
    case Join(i, limit) => w.(nodes := w.nodes[i := NewNode(limit)])
    case OnNode(i, st) => w.(nodes := w.nodes[i := Next(w.nodes[i], st)])
    case Save(i, data) => w.(snaps := w.snaps + {Snapshot(w.nodes[i].applied, data)})
    case Restart(i, snap) =>
      w.(nodes := w.nodes[i := Reboot(w.nodes[i], snap)],
         clients := map k | k in w.clients :: Disconnect(w.clients[k], i))
    case Open(k, filter, start) =>
      w.(clients := w.clients[k := Client(filter, start, start, start, [], None, false)])
    case Begin(k, i) =>
      var c, n := w.clients[k], w.nodes[i];
      w.(nodes := w.nodes[i := Next(n, Start(c.filter, c.anchor))],
         clients := w.clients[k := c.(session := Some((i, n.nextId)))])
    case Finish(k) =>
      var c := w.clients[k];
      var (i, id) := c.session.value;
      var n := w.nodes[i];
      var x := n.watchers[id];
      w.(nodes := w.nodes[i := Next(n, Return(id))],
         clients := w.clients[k := Receive(c, AnswerOf(x.pc.out, n.store.revision), x.aux.missed)])
  }

  // ------------------------------------------------------------ invariant

  /** A node's store is what its log prefix makes of it, up to compaction. */
  ghost predicate Replica(n: Node) {
    Tracks(n.store, Run(n.applied)) && n.stream == Stream(n.applied)
  }

  ghost predicate NodesOK(w: World) {
    forall i :: i in w.nodes ==> NodeInv(w.nodes[i]) && w.nodes[i].applied <= w.log && Replica(w.nodes[i])
  }

  ghost predicate SnapsOK(w: World) {
    forall s :: s in w.snaps ==> s.prefix <= w.log && Tracks(Load(s.data), Run(s.prefix))
  }

  /** What an untainted client holds is the matching history of (start, high]. */
  ghost predicate ClientOK(h: seq<WatchEvent>, c: Client) {
    && c.start > 0
    && (!c.tainted ==>
          && 0 < c.anchor <= c.high && c.start <= c.high
          && (c.high <= |h| || c.high == c.start)
          && c.got == Select(Window(h, c.start, c.high), c.filter))
  }

  ghost predicate Watching(n: Node, id: nat, filter: string, from: nat) {
    At(n, id) && n.watchers[id].filter == filter && n.watchers[id].from == from
  }

  ghost predicate SessionOK(w: World, k: nat)
    requires k in w.clients
  {
    var c := w.clients[k];
    c.session.Some? ==>
      c.session.value.0 in w.nodes &&
      Watching(w.nodes[c.session.value.0], c.session.value.1, c.filter, c.anchor)
  }

  ghost predicate ClientsOK(w: World) {
    && (forall k :: k in w.clients ==> ClientOK(Stream(w.log), w.clients[k]) && SessionOK(w, k))
    && (forall j, k :: j in w.clients && k in w.clients && j != k && w.clients[j].session.Some? ==>
          w.clients[j].session != w.clients[k].session)
  }

  ghost predicate WorldInv(w: World) {
    NodesOK(w) && SnapsOK(w) && ClientsOK(w)
  }

  // --------------------------------------------------------------- clients

  lemma {:induction false} AboveTwice(es: seq<WatchEvent>, lo: nat, hi: nat)
    requires lo <= hi
    ensures Above(Above(es, lo), hi) == Above(es, hi)
  {
    if es == [] {
    } else {
      var pre, last := es[..|es| - 1], es[|es| - 1];
      AboveTwice(pre, lo, hi);
      AboveConcat(Above(pre, lo), [last], hi);
      assert [last][..0] == [] && Above([], hi) == [];
    }
  }

  lemma AboveSelect(h: seq<WatchEvent>, filter: string, from: nat, high: nat, last: nat)
    requires Numbered(h, 0) && from <= high <= last <= |h|
    ensures Above(Select(h[from..last], filter), high) == Select(h[high..last], filter)
  {
    SelectBlank(h, filter, from, high, last);
    SelectAscending(h[from..high], filter, from);
    SelectAscending(h[high..last], filter, high);
    SplitNews(Select(h[from..high], filter), Select(h[high..last], filter), high);
  }

  /** Taking in an answer complete up to `last` extends what is held up to `high`. */
  lemma TakeNews(h: seq<WatchEvent>, filter: string, start: nat, from: nat, high: nat, last: nat,
                 got: seq<WatchEvent>, es: seq<WatchEvent>)
    requires Numbered(h, 0) && from <= high && start <= high && (high <= |h| || high == start) && last <= |h|
    requires got == Select(Window(h, start, high), filter)
    requires Above(es, from) == Select(Window(h, from, last), filter)
    requires forall i :: 0 <= i < |es| ==> es[i].revision <= last
    ensures got + Above(es, high) == Select(Window(h, start, Max(high, last)), filter)
  {
    if last <= high {
      NoneAbove(es, high);
    } else {
      AboveTwice(es, from, high);
      AboveSelect(h, filter, from, high, last);
      SelectBlank(h, filter, start, high, last);
    }
  }

  lemma LastIsTop(es: seq<WatchEvent>)
    requires es != [] && Ascending(es)
    ensures forall i :: 0 <= i < |es| ==> es[i].revision <= es[|es| - 1].revision
  {
  }

  /** Receiving a complete answer from a node that has applied a prefix of the log
      keeps what the client holds a prefix of the matching history. */
  lemma ReceiveKeeps(h: seq<WatchEvent>, h': seq<WatchEvent>, c: Client, pend: seq<WatchEvent>, es: seq<WatchEvent>)
    requires Numbered(h', 0) && h <= h' && ClientOK(h', c) && !c.tainted
    requires Good(h, c.filter, c.anchor, pend, es)
    ensures ClientOK(h', Receive(c, AnswerOf(Found(es), 0), false))
  {
    GoodStable(h, h', c.filter, c.anchor, pend, es);
    GoodNews(h', c.filter, c.anchor, pend, es);
    LastIsTop(es);
    TakeNews(h', c.filter, c.start, c.anchor, c.high, es[|es| - 1].revision, c.got, es);
  }

  lemma ClientStable(h: seq<WatchEvent>, h': seq<WatchEvent>, c: Client)
    requires h <= h' && ClientOK(h, c)
    ensures ClientOK(h', c)
  {
    if !c.tainted && c.high <= |h| {
      assert Window(h', c.start, c.high) == Window(h, c.start, c.high);
    } else if !c.tainted {
      assert Window(h, c.start, c.high) == [] && Window(h', c.start, c.high) == [];
    }
  }

  // ----------------------------------------------------------------- moves

  /** Every watcher of n but one is still there in n', asking for the same. */
  ghost predicate StillWatched(n: Node, n': Node, except: int) {
    forall id: nat :: At(n, id) && id != except ==>
      Watching(n', id, n.watchers[id].filter, n.watchers[id].from)
  }

  /** No step but its own return removes or relabels a watcher. */
  lemma StepWatched(n: Node, st: Step)
    requires Enabled(n, st) && HubOK(n)
    ensures StillWatched(n, Next(n, st), if st.Return? then st.id else -1)
  {
    forall id: nat | At(n, id) && st != Return(id)
      ensures Watching(Next(n, st), id, n.watchers[id].filter, n.watchers[id].from)
    {
      StepIdentity(n, st, id);
    }
  }

  lemma StaysThere(n: Node, st: Step, id: nat)
    requires Enabled(n, st) && At(n, id) && st != Return(id)
    ensures At(Next(n, st), id)
  {
  }

  lemma StepIdentity(n: Node, st: Step, id: nat)
    requires Enabled(n, st) && At(n, id) && st != Return(id) && id < n.nextId
    ensures Watching(Next(n, st), id, n.watchers[id].filter, n.watchers[id].from)
  {
    StaysThere(n, st, id);
    OneRequest(n, st, id);
  }

  /** One node moves on, one client may change: everyone else's round is untouched. */
  lemma SwapClient(w: World, i: nat, n: Node, k: nat, c: Client, except: int)
    requires ClientsOK(w) && i in w.nodes && k in w.clients && StillWatched(w.nodes[i], n, except)
    requires ClientOK(Stream(w.log), c) && SessionOK(w.(nodes := w.nodes[i := n], clients := w.clients[k := c]), k)
    requires forall j :: j in w.clients && j != k && w.clients[j].session.Some? ==>
               w.clients[j].session != c.session &&
               !(w.clients[j].session.value.0 == i && w.clients[j].session.value.1 == except)
    ensures ClientsOK(w.(nodes := w.nodes[i := n], clients := w.clients[k := c]))
  {
    var w' := w.(nodes := w.nodes[i := n], clients := w.clients[k := c]);
    forall j | j in w'.clients ensures SessionOK(w', j) {
      if j != k { assert SessionOK(w, j); }
    }
  }

  lemma SwapNode(w: World, i: nat, n: Node)
    requires ClientsOK(w) && i in w.nodes && StillWatched(w.nodes[i], n, -1)
    ensures ClientsOK(w.(nodes := w.nodes[i := n]))
  {
    var w' := w.(nodes := w.nodes[i := n]);
    forall j | j in w'.clients ensures SessionOK(w', j) { assert SessionOK(w, j); }
  }

  lemma MoreNodes(w: World, i: nat, n: Node)
    requires ClientsOK(w) && i !in w.nodes
    ensures ClientsOK(w.(nodes := w.nodes[i := n]))
  {
    var w' := w.(nodes := w.nodes[i := n]);
    forall j | j in w'.clients ensures SessionOK(w', j) { assert SessionOK(w, j); }
  }

  lemma AddNode(w: World, i: nat, n: Node)
    requires WorldInv(w) && i !in w.nodes && NodeInv(n) && n.applied <= w.log && Replica(n)
    ensures WorldInv(w.(nodes := w.nodes[i := n]))
  {
    MoreNodes(w, i, n);
    ReplaceNode(w, i, n, w.clients);
  }

  lemma AddSnapshot(w: World, s: Snapshot)
    requires WorldInv(w) && s.prefix <= w.log && Tracks(Load(s.data), Run(s.prefix))
    ensures WorldInv(w.(snaps := w.snaps + {s}))
  {
    forall j | j in w.clients ensures SessionOK(w.(snaps := w.snaps + {s}), j) { assert SessionOK(w, j); }
  }

  lemma AddClient(w: World, k: nat, c: Client)
    requires ClientsOK(w) && k !in w.clients && c.session.None? && ClientOK(Stream(w.log), c)
    ensures ClientsOK(w.(clients := w.clients[k := c]))
  {
    var w' := w.(clients := w.clients[k := c]);
    forall j | j in w'.clients ensures SessionOK(w', j) {
      if j != k { assert SessionOK(w, j); }
    }
  }

  lemma AppliedAfter(w: World, i: nat, st: Step)
    requires Allowed(w, OnNode(i, st)) && w.nodes[i].applied <= w.log
    requires st.Install? ==> st.prefix <= w.log
    ensures Next(w.nodes[i], st).applied <= w.log
  {
    if st.ApplyCmd? {
      var a := w.nodes[i].applied;
      assert w.log[..|a| + 1] == a + [st.cmd];
    }
  }

  lemma ReplaceNode(w: World, i: nat, n: Node, cs: map<nat, Client>)
    requires NodesOK(w) && SnapsOK(w) && NodeInv(n) && n.applied <= w.log && Replica(n)
    requires ClientsOK(w.(nodes := w.nodes[i := n], clients := cs))
    ensures WorldInv(w.(nodes := w.nodes[i := n], clients := cs))
  {
  }

  lemma ApplyReplica(n: Node, cmd: RaftCmd)
    requires Replica(n) && Enabled(n, ApplyCmd(cmd, true)) && Retained(n.store, Run(n.applied), cmd)
    ensures Replica(Next(n, ApplyCmd(cmd, true)))
  {
    RunFacts(n.applied);
    RunSnoc(n.applied, cmd);
    ApplyAgrees(n.store, Run(n.applied), cmd);
  }

  lemma EraseReplica(n: Node, ok: bool)
    requires Replica(n) && StoreOK(n) && Enabled(n, EraseHistory(ok))
    ensures Replica(Next(n, EraseHistory(ok)))
  {
    RunFacts(n.applied);
    CompactTracks(n.store, Run(n.applied), n.plan.value);
  }

  lemma OtherReplica(n: Node, st: Step)
    requires Replica(n) && Enabled(n, st) && !st.ApplyCmd? && !st.EraseHistory? && !st.Install?
    ensures Replica(Next(n, st))
  {
  }

  lemma ReplicaKeeps(w: World, i: nat, st: Step, n: Node)
    requires Allowed(w, OnNode(i, st)) && n == w.nodes[i] && Replica(n) && StoreOK(n) && SnapsOK(w)
    ensures Replica(Next(n, st))
  {
    match st
    case ApplyCmd(cmd, _) => ApplyReplica(n, cmd);
    case EraseHistory(ok) => EraseReplica(n, ok);
    case Install(prefix, _, data) => assert Snapshot(prefix, data) in w.snaps;
    case _ => OtherReplica(n, st);
  }

  lemma LocalKeeps(w: World, i: nat, st: Step)
    requires WorldInv(w) && Allowed(w, OnNode(i, st))
    ensures WorldInv(Perform(w, OnNode(i, st)))
  {
    var n' := Next(w.nodes[i], st);
    StepKeeps(w.nodes[i], st);
    if st.Install? { assert Snapshot(st.prefix, st.data) in w.snaps; }
    AppliedAfter(w, i, st);
    ReplicaKeeps(w, i, st, w.nodes[i]);
    StepWatched(w.nodes[i], st);
    SwapNode(w, i, n');
    ReplaceNode(w, i, n', w.clients);
  }

  lemma ProposeKeeps(w: World, cmd: RaftCmd)
    requires WorldInv(w)
    ensures WorldInv(Perform(w, Propose(cmd)))
  {
    var w' := Perform(w, Propose(cmd));
    RunPrefix(w.log, w'.log);
    forall k | k in w'.clients ensures ClientOK(Stream(w'.log), w'.clients[k]) && SessionOK(w', k) {
      assert SessionOK(w, k);
      ClientStable(Stream(w.log), Stream(w'.log), w.clients[k]);
    }
  }

  lemma SaveKeeps(w: World, i: nat, data: SnapshotData)
    requires WorldInv(w) && Allowed(w, Save(i, data))
    ensures WorldInv(Perform(w, Save(i, data)))
  {
    var n := w.nodes[i];
    RunFacts(n.applied);
    LoadTracks(data, n.store, Run(n.applied));
    AddSnapshot(w, Snapshot(n.applied, data));
  }

  lemma RebootInv(n: Node, snap: Snapshot)
    requires n.limit > 0 && Tracks(Load(snap.data), Run(snap.prefix))
    ensures NodeInv(Reboot(n, snap)) && Replica(Reboot(n, snap))
  {
    TracksRecorded(Load(snap.data), snap.prefix);
  }

  lemma RestartClients(w: World, i: nat, n: Node)
    requires ClientsOK(w) && i in w.nodes
    ensures ClientsOK(w.(nodes := w.nodes[i := n], clients := map k | k in w.clients :: Disconnect(w.clients[k], i)))
  {
    var w' := w.(nodes := w.nodes[i := n], clients := map k | k in w.clients :: Disconnect(w.clients[k], i));
    forall k | k in w'.clients ensures ClientOK(Stream(w'.log), w'.clients[k]) && SessionOK(w', k) {
      assert SessionOK(w, k);
    }
  }

  lemma RestartKeeps(w: World, i: nat, snap: Snapshot)
    requires WorldInv(w) && Allowed(w, Restart(i, snap))
    ensures WorldInv(Perform(w, Restart(i, snap)))
  {
    RebootInv(w.nodes[i], snap);
    RestartClients(w, i, Reboot(w.nodes[i], snap));
    ReplaceNode(w, i, Reboot(w.nodes[i], snap), Perform(w, Restart(i, snap)).clients);
  }

  lemma JoinKeeps(w: World, i: nat, limit: nat)
    requires WorldInv(w) && Allowed(w, Join(i, limit))
    ensures WorldInv(Perform(w, Join(i, limit)))
  {
    NewNodeInv(limit);
    AddNode(w, i, NewNode(limit));
  }

  lemma OpenKeeps(w: World, k: nat, filter: string, start: nat)
    requires WorldInv(w) && Allowed(w, Open(k, filter, start))
    ensures WorldInv(Perform(w, Open(k, filter, start)))
  {
    AddClient(w, k, Client(filter, start, start, start, [], None, false));
  }

  /** No client holds a session number that has not been given out. */
  lemma FreshSession(w: World, i: nat, j: nat)
    requires ClientsOK(w) && i in w.nodes && j in w.clients && HubOK(w.nodes[i])
    ensures w.clients[j].session != Some((i, w.nodes[i].nextId))
  {
    assert SessionOK(w, j);
  }

  lemma StartWatching(n: Node, filter: string, from: nat)
    requires HubOK(n)
    ensures Watching(Next(n, Start(filter, from)), n.nextId, filter, from)
  {
  }

  lemma BeginRound(w: World, k: nat, i: nat, c: Client, n: Node, n': Node)
    requires WorldInv(w) && k in w.clients && c == w.clients[k] && c.session.None? && i in w.nodes && n == w.nodes[i]
    requires n' == Next(n, Start(c.filter, c.anchor))
    ensures WorldInv(w.(nodes := w.nodes[i := n'], clients := w.clients[k := c.(session := Some((i, n.nextId)))]))
  {
    StepKeeps(n, Start(c.filter, c.anchor));
    StepWatched(n, Start(c.filter, c.anchor));
    StartWatching(n, c.filter, c.anchor);
    forall j | j in w.clients ensures w.clients[j].session != Some((i, n.nextId)) { FreshSession(w, i, j); }
    SwapClient(w, i, n', k, c.(session := Some((i, n.nextId))), -1);
    ReplaceNode(w, i, n', w.clients[k := c.(session := Some((i, n.nextId)))]);
  }

  lemma BeginKeeps(w: World, k: nat, i: nat)
    requires WorldInv(w) && Allowed(w, Begin(k, i))
    ensures WorldInv(Perform(w, Begin(k, i)))
  {
    var n, c := w.nodes[i], w.clients[k];
    BeginRound(w, k, i, c, n, Next(n, Start(c.filter, c.anchor)));
  }

  /** What the client makes of the answer. */
  lemma TakeAnswer(log: seq<RaftCmd>, id: nat, c: Client, n: Node, x: Watcher)
    requires ClientOK(Stream(log), c) && NodeInv(n) && Replica(n) && n.applied <= log
    requires At(n, id) && x == n.watchers[id] && x.pc.Closing? && x.filter == c.filter && x.from == c.anchor
    ensures ClientOK(Stream(log), Receive(c, AnswerOf(x.pc.out, n.store.revision), x.aux.missed))
  {
    ReturnGood(n, id, x);
    AnswerClient(log, n.applied, x, c, n.store.revision);
  }

  lemma ReturnNode(n: Node, id: nat, n': Node)
    requires NodeInv(n) && Replica(n) && Enabled(n, Return(id)) && n' == Next(n, Return(id))
    ensures NodeInv(n') && StillWatched(n, n', id) && Replica(n') && n'.applied == n.applied
  {
    StepKeeps(n, Return(id));
    StepWatched(n, Return(id));
  }

  lemma FinishRound(w: World, k: nat, i: nat, id: nat, c: Client, n: Node, n': Node, c': Client)
    requires k in w.clients && c == w.clients[k] && c.session == Some((i, id))
    requires i in w.nodes && n == w.nodes[i] && StillWatched(n, n', id) && NodeInv(n') && n'.applied == n.applied
    requires Replica(n') && ClientOK(Stream(w.log), c') && c'.session.None?
    requires WorldInv(w)
    ensures WorldInv(w.(nodes := w.nodes[i := n'], clients := w.clients[k := c']))
  {
    FinishClients(w, k, i, id, n', c');
    ReplaceNode(w, i, n', w.clients[k := c']);
  }

  lemma FinishClients(w: World, k: nat, i: nat, id: nat, n': Node, c': Client)
    requires ClientsOK(w) && k in w.clients && w.clients[k].session == Some((i, id))
    requires i in w.nodes && StillWatched(w.nodes[i], n', id) && ClientOK(Stream(w.log), c') && c'.session.None?
    ensures ClientsOK(w.(nodes := w.nodes[i := n'], clients := w.clients[k := c']))
  {
    SwapClient(w, i, n', k, c', id);
  }

  lemma FinishKeeps(w: World, k: nat, i: nat, id: nat, n: Node, n': Node, c: Client, c': Client)
    requires At(n, id) && n.watchers[id].pc.Closing? && n' == Next(n, Return(id))
    requires c' == Receive(c, AnswerOf(n.watchers[id].pc.out, n.store.revision), n.watchers[id].aux.missed)
    requires k in w.clients && c == w.clients[k] && i in w.nodes && n == w.nodes[i] && c.session == Some((i, id))
    requires WorldInv(w)
    ensures WorldInv(w.(nodes := w.nodes[i := n'], clients := w.clients[k := c']))
  {
    ReturnIn(w, i, n, id, n');
    FinishClient(w, k, i, id, c, n, n.watchers[id]);
    FinishRound(w, k, i, id, c, n, n', c');
  }

  lemma ReturnIn(w: World, i: nat, n: Node, id: nat, n': Node)
    requires i in w.nodes && n == w.nodes[i] && Enabled(n, Return(id)) && n' == Next(n, Return(id))
    requires NodesOK(w)
    ensures NodeInv(n') && StillWatched(n, n', id) && Replica(n') && n'.applied == n.applied
  {
    ReturnNode(n, id, n');
  }

  lemma FinishClient(w: World, k: nat, i: nat, id: nat, c: Client, n: Node, x: Watcher)
    requires WorldInv(w) && k in w.clients && c == w.clients[k] && c.session == Some((i, id))
    requires i in w.nodes && n == w.nodes[i] && At(n, id) && x == n.watchers[id] && x.pc.Closing?
    ensures ClientOK(Stream(w.log), Receive(c, AnswerOf(x.pc.out, n.store.revision), x.aux.missed))
  {
    assert SessionOK(w, k);
    TakeAnswer(w.log, id, c, n, x);
  }

  lemma AnswerClient(log: seq<RaftCmd>, applied: seq<RaftCmd>, x: Watcher, c: Client, revision: nat)
    requires applied <= log && x.pc.Closing? && x.filter == c.filter && x.from == c.anchor
    requires ClientOK(Stream(log), c)
    requires x.pc.out.Found? && x.from > 0 && !x.aux.missed ==>
               Good(Stream(applied), x.filter, x.from, x.aux.pend, x.pc.out.es)
    ensures ClientOK(Stream(log), Receive(c, AnswerOf(x.pc.out, revision), x.aux.missed))
  {
    if x.pc.out.Found? && !c.tainted && !x.aux.missed {
      RunPrefix(applied, log);
      RunFacts(log);
      ReceiveKeeps(Stream(applied), Stream(log), c, x.aux.pend, x.pc.out.es);
    }
  }

  lemma ReturnGood(n: Node, id: nat, x: Watcher)
    requires NodeInv(n) && At(n, id) && x == n.watchers[id] && x.pc.Closing?
    ensures x.pc.out.Found? && x.from > 0 && !x.aux.missed ==>
              Good(n.stream, x.filter, x.from, x.aux.pend, x.pc.out.es)
  {
    if x.pc.out.Found? && x.from > 0 { AnswerOK(n, id, x, x.pc.out); }
  }

  /** What every move of the cluster keeps. */
  lemma MoveKeepsWorld(w: World, m: Move)
    requires WorldInv(w) && Allowed(w, m)
    ensures WorldInv(Perform(w, m))
  {
    match m
    case Propose(cmd) => ProposeKeeps(w, cmd);
    case Join(i, limit) => JoinKeeps(w, i, limit);
    case OnNode(i, st) => LocalKeeps(w, i, st);
    case Save(i, data) => SaveKeeps(w, i, data);
    case Restart(i, snap) => RestartKeeps(w, i, snap);
    case Open(k, filter, start) => OpenKeeps(w, k, filter, start);
    case Begin(k, i) => BeginKeeps(w, k, i);
    case Finish(k) =>
      var (i, id) := w.clients[k].session.value;
      var n := w.nodes[i];
      FinishKeeps(w, k, i, id, n, Next(n, Return(id)), w.clients[k], Perform(w, m).clients[k]);
  }

  // ----------------------------------------------------------------- runs

  ghost predicate Possible(ms: seq<Move>)
    decreases |ms|, 0
  {
    ms == [] || (Possible(ms[..|ms| - 1]) && Allowed(WorldAfter(ms[..|ms| - 1]), ms[|ms| - 1]))
  }

  ghost function WorldAfter(ms: seq<Move>): World
    requires Possible(ms)
    decreases |ms|, 1
  {
    if ms == [] then INITIAL else Perform(WorldAfter(ms[..|ms| - 1]), ms[|ms| - 1])
  }

  lemma {:induction false} RunInv(ms: seq<Move>)
    requires Possible(ms)
    ensures WorldInv(WorldAfter(ms))
  {
    if ms == [] {
    } else {
      RunInv(ms[..|ms| - 1]);
      MoveKeepsWorld(WorldAfter(ms[..|ms| - 1]), ms[|ms| - 1]);
    }
  }

  /** A client has received, repetitions dropped, exactly the matching history of
      (start, high], a prefix of all the matching committed history after its start. */
  ghost predicate HasHistory(w: World, k: nat)
    requires k in w.clients
  {
    var c, h := w.clients[k], Stream(w.log);
    && c.got == Select(Window(h, c.start, c.high), c.filter)
    && c.got <= Select(Window(h, c.start, |h|), c.filter)
    && Ascending(c.got) && 0 < c.anchor <= c.high
  }

  lemma UntaintedComplete(ms: seq<Move>, k: nat)
    requires Possible(ms) && k in WorldAfter(ms).clients && !WorldAfter(ms).clients[k].tainted
    ensures HasHistory(WorldAfter(ms), k)
  {
    RunInv(ms);
    var w := WorldAfter(ms);
    ClientHistory(w.log, w.clients[k]);
  }

  lemma ClientHistory(log: seq<RaftCmd>, c: Client)
    requires ClientOK(Stream(log), c) && !c.tainted
    ensures var h := Stream(log);
            c.got <= Select(Window(h, c.start, |h|), c.filter) && Ascending(c.got)
  {
    var h := Stream(log);
    RunFacts(log);
    assert Numbered(Window(h, c.start, c.high), c.start);
    SelectAscending(Window(h, c.start, c.high), c.filter, c.start);
    if c.start <= c.high <= |h| {
      SelectBlank(h, c.filter, c.start, c.high, |h|);
    }
  }

  /** Replica agreement under independent compaction: nodes that have applied
      equally much hold the same main index and revision; each one's version index
      and history are part of the uncompacted run's, with nothing missing above its
      own compactRev. */
  lemma ReplicasAgree(ms: seq<Move>, i: nat, j: nat)
    requires Possible(ms) && i in WorldAfter(ms).nodes && j in WorldAfter(ms).nodes
    requires |WorldAfter(ms).nodes[i].applied| == |WorldAfter(ms).nodes[j].applied|
    ensures var w := WorldAfter(ms);
            var a, b := w.nodes[i], w.nodes[j];
            && a.applied == b.applied && a.applied <= w.log
            && a.store.main == b.store.main == Run(a.applied).main
            && a.store.revision == b.store.revision == Run(a.applied).revision
            && Tracks(a.store, Run(a.applied)) && Tracks(b.store, Run(a.applied))
  {
    RunInv(ms);
  }

  /** Whoever applies an entry reports the same result and announces the same events. */
  lemma ResultsAgree(ms: seq<Move>, i: nat, cmd: RaftCmd)
    requires Possible(ms) && Allowed(WorldAfter(ms), OnNode(i, ApplyCmd(cmd, true)))
    ensures var w := WorldAfter(ms);
            var n := w.nodes[i];
            Result(n.store, cmd) == Result(Run(w.log[..|n.applied|]), w.log[|n.applied|])
  {
    RunInv(ms);
    var w := WorldAfter(ms);
    assert w.log[..|w.nodes[i].applied|] == w.nodes[i].applied;
    ReplicaResult(w.nodes[i], cmd);
  }

  lemma ReplicaResult(n: Node, cmd: RaftCmd)
    requires Replica(n) && Retained(n.store, Run(n.applied), cmd)
    ensures Result(n.store, cmd) == Result(Run(n.applied), cmd)
  {
    RunFacts(n.applied);
    ApplyAgrees(n.store, Run(n.applied), cmd);
  }

  /** What the single-node model asks of an installed snapshot holds of every
      snapshot of the cluster that is not older than the node. */
  lemma SnapshotsExtend(ms: seq<Move>, i: nat, snap: Snapshot)
    requires Possible(ms) && i in WorldAfter(ms).nodes && snap in WorldAfter(ms).snaps
    requires WorldAfter(ms).nodes[i].applied <= snap.prefix
    ensures WorldAfter(ms).nodes[i].stream <= Stream(snap.prefix)
    ensures Inv(Load(snap.data)) && Recorded(Stream(snap.prefix), Load(snap.data))
  {
    RunInv(ms);
    RunPrefix(WorldAfter(ms).nodes[i].applied, snap.prefix);
    TracksRecorded(Load(snap.data), snap.prefix);
  }

  lemma {:induction false} LogGrows(ms: seq<Move>, k: nat)
    requires Possible(ms) && k <= |ms|
    ensures Possible(ms[..k]) && WorldAfter(ms[..k]).log <= WorldAfter(ms).log
  {
    if k == |ms| {
      assert ms[..k] == ms;
    } else {
      LogGrows(ms[..|ms| - 1], k);
      assert ms[..|ms| - 1][..k] == ms[..k];
    }
  }

  /** Published versions are immutable and never reused: whatever record a version
      lookup returned on any node at any time, every later lookup of that version
      on any node returns the same record or VERSION_NOT_FOUND. */
  lemma PublishedVersionsImmutable(ms: seq<Move>, k: nat, i: nat, j: nat, key: string, version: int, kv: KV)
    requires Possible(ms) && k <= |ms| && version > 0 && Possible(ms[..k])
    requires i in WorldAfter(ms[..k]).nodes && j in WorldAfter(ms).nodes
    requires GetConfig(WorldAfter(ms[..k]).nodes[i].store, key, version) == (OK, Some(kv))
    ensures GetConfig(WorldAfter(ms).nodes[j].store, key, version) in {(OK, Some(kv)), (VERSION_NOT_FOUND, None)}
  {
    RunInv(ms);
    RunInv(ms[..k]);
    LogGrows(ms, k);
    var w, w' := WorldAfter(ms[..k]), WorldAfter(ms);
    RunPrefix(w.nodes[i].applied, w'.log);
    RunPrefix(w'.nodes[j].applied, w'.log);
  }
}
