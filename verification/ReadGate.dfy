/** The linearizable read gate of RaftNode::Get over the cluster model
    (src/raft/raft_node.cpp).  Assumed of braft: every local commit index is a
    globally committed one, and a VALID lease means the local commit index covers
    every globally committed entry at that moment. */
module ReadGate {
  import opened Records
  import opened Mvcc
  import opened Replication
  import opened WatchNode
  import opened Cluster
  import opened Laws
  import StoreModel

  // ------------------------------------------------------- the gate's code

  datatype Lease = Valid | Expired | Disabled | NotReady

  /** One turn of a polling loop: what was observed, and whether the deadline had
      passed when the loop looked at the clock. */
  datatype Poll<T> = Poll(seen: T, late: bool)

  datatype Status = Status(applied: nat, committed: nat)

  /** The loop ends at the first poll that is not NOT_READY or is past the deadline;
      only VALID there opens the gate. */
  method WaitLeaderLease(hasNode: bool, polls: seq<Poll<Lease>>) returns (ok: bool)
    requires hasNode ==> exists k :: 0 <= k < |polls| && (!polls[k].seen.NotReady? || polls[k].late)
    ensures ok <==> hasNode && exists k ::
              && 0 <= k < |polls| && polls[k].seen.Valid?
              && forall i :: 0 <= i < k ==> polls[i].seen.NotReady? && !polls[i].late
  {
    if !hasNode {
      return false;
    }
    ghost var end :| 0 <= end < |polls| && (!polls[end].seen.NotReady? || polls[end].late);
    var i := 0;
    while true
      invariant 0 <= i <= end
      invariant forall j :: 0 <= j < i ==> polls[j].seen.NotReady? && !polls[j].late
      decreases end - i
    {
      match polls[i].seen
      case Valid => return true;
      case Expired => return false;
      case Disabled => return false;
      case NotReady =>
        if polls[i].late {
          return false;
        }
        i := i + 1;
    }
  }

  /** The loop ends at the first sample that has caught up or is past the deadline. */
  method WaitAppliedCatchUp(hasNode: bool, polls: seq<Poll<Status>>) returns (ok: bool)
    requires hasNode ==>
               exists k :: 0 <= k < |polls| && (polls[k].seen.applied >= polls[k].seen.committed || polls[k].late)
    ensures ok <==> hasNode && exists k ::
              && 0 <= k < |polls| && polls[k].seen.applied >= polls[k].seen.committed
              && forall i :: 0 <= i < k ==> polls[i].seen.applied < polls[i].seen.committed && !polls[i].late
  {
    if !hasNode {
      return false;
    }
    ghost var end :| 0 <= end < |polls| && (polls[end].seen.applied >= polls[end].seen.committed || polls[end].late);
    var i := 0;
    while true
      invariant 0 <= i <= end
      invariant forall j :: 0 <= j < i ==> polls[j].seen.applied < polls[j].seen.committed && !polls[j].late
      decreases end - i
    {
      if polls[i].seen.applied >= polls[i].seen.committed {
        return true;
      }
      if polls[i].late {
        return false;
      }
      i := i + 1;
    }
  }

  /** A non-serializable read reaches the store only through a VALID lease and a
      caught-up sample; every other ending is an error without a record. */
  method GetRead(store: StoreModel.Store, key: string, serializable: bool, hasNode: bool, isLeader: bool,
                 leases: seq<Poll<Lease>>, samples: seq<Poll<Status>>)
    returns (code: Code, kv: Option<KV>)
    requires store.Valid()
    requires !serializable && hasNode ==> exists k :: 0 <= k < |leases| && (!leases[k].seen.NotReady? || leases[k].late)
    requires !serializable && hasNode ==>
               exists k :: 0 <= k < |samples| && (samples[k].seen.applied >= samples[k].seen.committed || samples[k].late)
    ensures var leased := hasNode && exists k ::
              && 0 <= k < |leases| && leases[k].seen.Valid?
              && forall i :: 0 <= i < k ==> leases[i].seen.NotReady? && !leases[i].late;
            var caughtUp := exists k ::
              && 0 <= k < |samples| && samples[k].seen.applied >= samples[k].seen.committed
              && forall i :: 0 <= i < k ==> samples[i].seen.applied < samples[i].seen.committed && !samples[i].late;
            var main := store.abs.main;
            (code, kv) ==
              if !serializable && !leased then (if isLeader then INTERNAL else NOT_LEADER, None)
              else if !serializable && !caughtUp then (INTERNAL, None)
              else if key in main && !main[key].deleted then (OK, Some(main[key]))
              else (KEY_NOT_FOUND, None)
  {
    kv := None;
    if !serializable {
      var leased := WaitLeaderLease(hasNode, leases);
      if !leased {
        code := if isLeader then INTERNAL else NOT_LEADER;
        return;
      }
      var caughtUp := WaitAppliedCatchUp(hasNode, samples);
      if !caughtUp {
        code := INTERNAL;
        return;
      }
    }
    code, kv := store.Get(key);
  }

  // ---------------------------------------------------- the gate in a run

  datatype Stage = Leasing | Sampling | Fetching

  /** `floor` is a history variable: the log index that acknowledged writes and
      returned reads had reached when this read began; `began` counts the reads
      returned by then. */
  datatype Read = Read(node: nat, key: string, stage: Stage, floor: nat, began: nat)

  datatype Returned = Returned(key: string, index: nat, floor: nat, began: nat, result: (Code, Option<KV>))

  datatype Gate = Gate(
    world: World, commit: map<nat, nat>, known: map<nat, nat>, acked: nat,
    pending: map<nat, Read>, returned: seq<Returned>)

  datatype Act =
    | Turn(m: Move)
    | Learn(node: nat, index: nat)
    | Report(node: nat)
    | Acknowledge(node: nat, index: nat)
    | BeginRead(r: nat, node: nat, key: string)
    | LeaseValid(r: nat)
    | SampleStatus(r: nat)
    | Abandon(r: nat)
    | Fetch(r: nat)

  const START: Gate := Gate(INITIAL, map[], map[], 0, map[], [])

  /** The highest index any returned read reflects. */
  function Served(rs: seq<Returned>): nat {
    if rs == [] then 0 else Max(Served(rs[..|rs| - 1]), rs[|rs| - 1].index)
  }

  function Applied(g: Gate, i: nat): nat
    requires i in g.world.nodes
  {
    |g.world.nodes[i].applied|
  }

  ghost predicate May(g: Gate, a: Act) {
    match a
    // a node applies only what it knows to be committed
    case Turn(m) =>
      Allowed(g.world, m) &&
      (m.OnNode? && m.st.ApplyCmd? && m.node in g.world.nodes && m.node in g.commit ==>
         Applied(g, m.node) < g.commit[m.node])
    case Learn(i, c) => i in g.world.nodes && i in g.commit && g.commit[i] <= c <= |g.world.log|
    case Report(i) => i in g.world.nodes
    case Acknowledge(i, c) => i in g.world.nodes && c <= Applied(g, i)
    case BeginRead(r, i, _) => r !in g.pending && i in g.world.nodes
    case LeaseValid(r) =>
      r in g.pending && g.pending[r].stage.Leasing? && g.pending[r].node in g.commit &&
      g.commit[g.pending[r].node] == |g.world.log|
    case SampleStatus(r) =>
      r in g.pending && g.pending[r].stage.Sampling? && g.pending[r].node in g.commit && g.pending[r].node in g.known &&
      g.known[g.pending[r].node] >= g.commit[g.pending[r].node]
    case Abandon(r) => r in g.pending
    case Fetch(r) => r in g.pending && g.pending[r].stage.Fetching? && g.pending[r].node in g.world.nodes
  }

  /** A node's indices after a move of the world: a restart falls back to the
      snapshot, everything else only advances. */
  ghost function Track(g: Gate, m: Move): Gate
    requires Allowed(g.world, m)
  {
    var w := Perform(g.world, m);
    match m
    case Join(i, _) => g.(world := w, commit := g.commit[i := 0], known := g.known[i := 0])
    case Restart(i, snap) =>
      g.(world := w, commit := g.commit[i := |snap.prefix|], known := g.known[i := |snap.prefix|],
         pending := map r | r in g.pending && g.pending[r].node != i :: g.pending[r])
    case OnNode(i, st) =>
      g.(world := w, commit := if i in g.commit then g.commit[i := Max(g.commit[i], |w.nodes[i].applied|)] else g.commit)
    case _ => g.(world := w)
  }

  ghost function Step(g: Gate, a: Act): Gate
    requires May(g, a)
  {
    match a
    case Turn(m) => Track(g, m)
    case Learn(i, c) => g.(commit := g.commit[i := c])
    case Report(i) => g.(known := g.known[i := Applied(g, i)])
    case Acknowledge(i, c) => g.(acked := Max(g.acked, c))
    case BeginRead(r, i, key) =>
      g.(pending := g.pending[r := Read(i, key, Leasing, Max(g.acked, Served(g.returned)), |g.returned|)])
    case LeaseValid(r) => g.(pending := g.pending[r := g.pending[r].(stage := Sampling)])
    case SampleStatus(r) => g.(pending := g.pending[r := g.pending[r].(stage := Fetching)])
    case Abandon(r) => g.(pending := g.pending - {r})
    case Fetch(r) =>
      var rd := g.pending[r];
      var n := g.world.nodes[rd.node];
      g.(pending := g.pending - {r},
         returned := g.returned + [Returned(rd.key, |n.applied|, rd.floor, rd.began, Get(n.store, rd.key))])
  }

  // ------------------------------------------------------------ invariant

  ghost predicate IndicesOK(g: Gate) {
    && g.acked <= |g.world.log| && Served(g.returned) <= |g.world.log|
    && (forall i :: i in g.world.nodes ==>
          i in g.commit && i in g.known && g.known[i] <= Applied(g, i) <= g.commit[i] <= |g.world.log|)
  }

  ghost predicate ReadOK(g: Gate, rd: Read) {
    && rd.floor <= |g.world.log| && rd.began <= |g.returned|
    && Served(g.returned[..rd.began]) <= rd.floor
    && rd.node in g.world.nodes && rd.node in g.commit && rd.node in g.known
    && (rd.stage.Sampling? ==> rd.floor <= g.commit[rd.node])
    && (rd.stage.Fetching? ==> rd.floor <= g.known[rd.node])
  }

  ghost predicate ReturnedOK(log: seq<RaftCmd>, rs: seq<Returned>, q: nat)
    requires q < |rs|
  {
    && rs[q].index <= |log| && rs[q].floor <= rs[q].index && rs[q].began <= q
    && Served(rs[..rs[q].began]) <= rs[q].index
    && rs[q].result == Get(Run(log[..rs[q].index]), rs[q].key)
  }

  ghost predicate GateOK(g: Gate) {
    && IndicesOK(g)
    && (forall r :: r in g.pending ==> ReadOK(g, g.pending[r]))
    && (forall q: nat :: q < |g.returned| ==> ReturnedOK(g.world.log, g.returned, q))
  }

  ghost predicate GateInv(g: Gate) { WorldInv(g.world) && GateOK(g) }

  /** All the gate needs of the world: nodes and snapshots stand at log prefixes. */
  ghost predicate Prefixes(w: World) {
    && (forall i :: i in w.nodes ==> w.nodes[i].applied <= w.log)
    && (forall s :: s in w.snaps ==> s.prefix <= w.log)
  }

  lemma {:induction false} ServedBounds(rs: seq<Returned>, p: nat)
    requires p < |rs|
    ensures rs[p].index <= Served(rs)
  {
    if p == |rs| - 1 {
    } else {
      ServedBounds(rs[..|rs| - 1], p);
    }
  }

  lemma ReturnedStable(log: seq<RaftCmd>, log': seq<RaftCmd>, rs: seq<Returned>, rs': seq<Returned>, q: nat)
    requires log <= log' && rs <= rs' && q < |rs| && ReturnedOK(log, rs, q)
    ensures ReturnedOK(log', rs', q)
  {
    assert log'[..rs[q].index] == log[..rs[q].index];
    assert rs'[..rs[q].began] == rs[..rs[q].began];
  }

  lemma NextApplied(n: Node, st: WatchNode.Step)
    requires Enabled(n, st)
    ensures n.applied <= Next(n, st).applied
    ensures !st.ApplyCmd? && !st.Install? ==> Next(n, st).applied == n.applied
    ensures st.ApplyCmd? ==> |Next(n, st).applied| == |n.applied| + 1
    ensures st.Install? ==> Next(n, st).applied == st.prefix
  {
  }

  /** A node has moved on along the log; its commit index follows. */
  lemma NodeMoves(g: Gate, i: nat, n: Node, w: World, commit: map<nat, nat>)
    requires IndicesOK(g) && i in g.world.nodes && g.world.nodes[i].applied <= n.applied <= g.world.log
    requires w.log == g.world.log && w.nodes == g.world.nodes[i := n]
    requires commit == g.commit[i := Max(g.commit[i], |n.applied|)] || (commit == g.commit && n.applied == g.world.nodes[i].applied)
    ensures IndicesOK(g.(world := w, commit := commit))
  {
  }

  lemma NodeRestarts(g: Gate, i: nat, n: Node, w: World, c: nat)
    requires IndicesOK(g) && n.applied <= g.world.log && c == |n.applied|
    requires w.log == g.world.log && w.nodes == g.world.nodes[i := n]
    ensures IndicesOK(g.(world := w, commit := g.commit[i := c], known := g.known[i := c]))
  {
  }

  lemma OnNodeKeeps(g: Gate, i: nat, st: WatchNode.Step)
    requires IndicesOK(g) && Prefixes(g.world) && May(g, Turn(OnNode(i, st)))
    ensures IndicesOK(Track(g, OnNode(i, st)))
  {
    var n', g' := Next(g.world.nodes[i], st), Track(g, OnNode(i, st));
    NextApplied(g.world.nodes[i], st);
    if st.Install? { assert Snapshot(st.prefix, st.data) in g.world.snaps; }
    NodeMoves(g, i, n', g'.world, g'.commit);
  }

  lemma RestartIndices(g: Gate, i: nat, snap: Snapshot)
    requires IndicesOK(g) && Prefixes(g.world) && May(g, Turn(Restart(i, snap)))
    ensures IndicesOK(Track(g, Restart(i, snap)))
  {
    NodeRestarts(g, i, Reboot(g.world.nodes[i], snap), Track(g, Restart(i, snap)).world, |snap.prefix|);
  }

  lemma JoinIndices(g: Gate, i: nat, limit: nat)
    requires IndicesOK(g) && May(g, Turn(Join(i, limit)))
    ensures IndicesOK(Track(g, Join(i, limit)))
  {
    NodeRestarts(g, i, NewNode(limit), Track(g, Join(i, limit)).world, 0);
  }

  lemma BeginIndices(g: Gate, k: nat, i: nat)
    requires IndicesOK(g) && Prefixes(g.world) && May(g, Turn(Begin(k, i)))
    ensures IndicesOK(Track(g, Begin(k, i)))
  {
    var st := Start(g.world.clients[k].filter, g.world.clients[k].anchor);
    NodeMoves(g, i, Next(g.world.nodes[i], st), Track(g, Begin(k, i)).world, g.commit);
  }

  lemma FinishIndices(g: Gate, k: nat)
    requires IndicesOK(g) && Prefixes(g.world) && May(g, Turn(Finish(k)))
    ensures IndicesOK(Track(g, Finish(k)))
  {
    var (i, id) := g.world.clients[k].session.value;
    NodeMoves(g, i, Next(g.world.nodes[i], Return(id)), Track(g, Finish(k)).world, g.commit);
  }

  lemma IndicesKeep(g: Gate, m: Move)
    requires IndicesOK(g) && Prefixes(g.world) && May(g, Turn(m))
    ensures IndicesOK(Track(g, m))
  {
    match m
    case OnNode(i, st) => OnNodeKeeps(g, i, st);
    case Restart(i, snap) => RestartIndices(g, i, snap);
    case Join(i, limit) => JoinIndices(g, i, limit);
    case Begin(k, i) => BeginIndices(g, k, i);
    case Finish(k) => FinishIndices(g, k);
    case _ =>
  }

  lemma TrackIndices(g: Gate, m: Move)
    requires IndicesOK(g) && Allowed(g.world, m)
    ensures var g' := Track(g, m);
            && (forall i :: i in g.world.nodes ==> i in g'.world.nodes && i in g'.commit && i in g'.known)
            && (forall i :: i in g.world.nodes && !(m.Restart? && m.node == i) ==>
                  g.commit[i] <= g'.commit[i] && g.known[i] <= g'.known[i])
  {
  }

  lemma TrackReads(g: Gate, m: Move)
    requires Allowed(g.world, m)
    ensures var g' := Track(g, m);
            && g.world.log <= g'.world.log && g'.returned == g.returned
            && (forall r :: r in g'.pending ==> r in g.pending && g'.pending[r] == g.pending[r])
            && (m.Restart? ==> forall r :: r in g'.pending ==> g'.pending[r].node != m.node)
  {
  }

  lemma TurnKeeps(g: Gate, m: Move)
    requires GateOK(g) && Prefixes(g.world) && May(g, Turn(m))
    ensures GateOK(Track(g, m))
  {
    var g' := Track(g, m);
    IndicesKeep(g, m);
    TrackIndices(g, m);
    TrackReads(g, m);
    forall r | r in g'.pending ensures ReadOK(g', g'.pending[r]) {
      assert ReadOK(g, g.pending[r]);
    }
    forall q: nat | q < |g'.returned| ensures ReturnedOK(g'.world.log, g'.returned, q) {
      ReturnedStable(g.world.log, g'.world.log, g.returned, g'.returned, q);
    }
  }

  lemma ReadStable(g: Gate, g': Gate, rd: Read)
    requires ReadOK(g, rd) && g'.world == g.world && g'.commit == g.commit && g'.known == g.known
    requires g.returned <= g'.returned
    ensures ReadOK(g', rd)
  {
    assert g'.returned[..rd.began] == g.returned[..rd.began];
  }

  /** The record of a read that has passed the gate. */
  lemma FetchedOK(g: Gate, rd: Read, n: Node, ret: Returned)
    requires IndicesOK(g) && Prefixes(g.world) && ReadOK(g, rd) && rd.stage.Fetching?
    requires rd.node in g.world.nodes && n == g.world.nodes[rd.node] && n.store.main == Run(n.applied).main
    requires ret == Returned(rd.key, |n.applied|, rd.floor, rd.began, Get(n.store, rd.key))
    ensures ReturnedOK(g.world.log, g.returned + [ret], |g.returned|) && ret.index <= |g.world.log|
  {
    assert n.applied == g.world.log[..|n.applied|];
    assert (g.returned + [ret])[..rd.began] == g.returned[..rd.began];
  }

  lemma AddReturned(g: Gate, r: nat, ret: Returned)
    requires GateOK(g) && ret.index <= |g.world.log|
    requires ReturnedOK(g.world.log, g.returned + [ret], |g.returned|)
    ensures GateOK(g.(pending := g.pending - {r}, returned := g.returned + [ret]))
  {
    var g' := g.(pending := g.pending - {r}, returned := g.returned + [ret]);
    assert g'.returned[..|g.returned|] == g.returned;
    forall x | x in g'.pending ensures ReadOK(g', g'.pending[x]) { ReadStable(g, g', g.pending[x]); }
    forall q: nat | q < |g'.returned| ensures ReturnedOK(g'.world.log, g'.returned, q) {
      if q < |g.returned| { ReturnedStable(g.world.log, g'.world.log, g.returned, g'.returned, q); }
    }
  }

  lemma FetchKeeps(g: Gate, r: nat)
    requires GateOK(g) && Prefixes(g.world) && May(g, Fetch(r))
    requires var n := g.world.nodes[g.pending[r].node]; n.store.main == Run(n.applied).main
    ensures GateOK(Step(g, Fetch(r)))
  {
    var rd := g.pending[r];
    var n := g.world.nodes[rd.node];
    var ret := Returned(rd.key, |n.applied|, rd.floor, rd.began, Get(n.store, rd.key));
    FetchedOK(g, rd, n, ret);
    AddReturned(g, r, ret);
  }

  /** Indices only move up. */
  lemma IndicesRise(g: Gate, commit: map<nat, nat>, known: map<nat, nat>, acked: nat)
    requires GateOK(g) && IndicesOK(g.(commit := commit, known := known, acked := acked))
    requires forall i :: i in g.commit ==> i in commit && g.commit[i] <= commit[i]
    requires forall i :: i in g.known ==> i in known && (i in g.world.nodes ==> g.known[i] <= known[i])
    ensures GateOK(g.(commit := commit, known := known, acked := acked))
  {
    var g' := g.(commit := commit, known := known, acked := acked);
    forall x | x in g'.pending ensures ReadOK(g', g'.pending[x]) { assert ReadOK(g, g.pending[x]); }
    forall q: nat | q < |g'.returned| ensures ReturnedOK(g'.world.log, g'.returned, q) {
      assert ReturnedOK(g.world.log, g.returned, q);
    }
  }

  lemma IndexActKeeps(g: Gate, a: Act)
    requires GateOK(g) && May(g, a) && (a.Learn? || a.Report? || a.Acknowledge?)
    ensures GateOK(Step(g, a))
  {
    var g' := Step(g, a);
    IndicesRise(g, g'.commit, g'.known, g'.acked);
  }

  lemma PutRead(g: Gate, r: nat, rd: Read)
    requires GateOK(g) && ReadOK(g, rd)
    ensures GateOK(g.(pending := g.pending[r := rd]))
  {
    var g' := g.(pending := g.pending[r := rd]);
    forall x | x in g'.pending ensures ReadOK(g', g'.pending[x]) {
      ReadStable(g, g', g'.pending[x]);
    }
    forall q: nat | q < |g'.returned| ensures ReturnedOK(g'.world.log, g'.returned, q) {
      assert ReturnedOK(g.world.log, g.returned, q);
    }
  }

  lemma DropRead(g: Gate, r: nat)
    requires GateOK(g)
    ensures GateOK(g.(pending := g.pending - {r}))
  {
    var g' := g.(pending := g.pending - {r});
    forall x | x in g'.pending ensures ReadOK(g', g'.pending[x]) { ReadStable(g, g', g.pending[x]); }
    forall q: nat | q < |g'.returned| ensures ReturnedOK(g'.world.log, g'.returned, q) {
      assert ReturnedOK(g.world.log, g.returned, q);
    }
  }

  lemma BeganOK(g: Gate, i: nat, key: string)
    requires IndicesOK(g) && i in g.world.nodes
    ensures ReadOK(g, Read(i, key, Leasing, Max(g.acked, Served(g.returned)), |g.returned|))
  {
    assert g.returned[..|g.returned|] == g.returned;
  }

  lemma StagedOK(g: Gate, rd: Read, stage: Stage)
    requires IndicesOK(g) && ReadOK(g, rd)
    requires stage.Sampling? ==> g.commit[rd.node] == |g.world.log|
    requires stage.Fetching? ==> rd.stage.Sampling? && g.known[rd.node] >= g.commit[rd.node]
    ensures ReadOK(g, rd.(stage := stage))
  {
  }

  lemma ReadActKeeps(g: Gate, a: Act)
    requires GateOK(g) && May(g, a) && (a.BeginRead? || a.LeaseValid? || a.SampleStatus? || a.Abandon?)
    ensures GateOK(Step(g, a))
  {
    match a
    case BeginRead(r, i, key) =>
      BeganOK(g, i, key);
      PutRead(g, r, Step(g, a).pending[r]);
    case LeaseValid(r) =>
      StagedOK(g, g.pending[r], Sampling);
      PutRead(g, r, Step(g, a).pending[r]);
    case SampleStatus(r) =>
      StagedOK(g, g.pending[r], Fetching);
      PutRead(g, r, Step(g, a).pending[r]);
    case Abandon(r) => DropRead(g, r);
  }

  lemma WorldPrefixes(w: World)
    requires WorldInv(w)
    ensures Prefixes(w)
    ensures forall i :: i in w.nodes ==> w.nodes[i].store.main == Run(w.nodes[i].applied).main
  {
  }

  lemma WorldStays(g: Gate, a: Act)
    requires WorldInv(g.world) && May(g, a)
    ensures WorldInv(Step(g, a).world)
  {
    if a.Turn? { MoveKeepsWorld(g.world, a.m); }
  }

  lemma GateStays(g: Gate, a: Act)
    requires GateOK(g) && May(g, a) && Prefixes(g.world)
    requires forall i :: i in g.world.nodes ==> g.world.nodes[i].store.main == Run(g.world.nodes[i].applied).main
    ensures GateOK(Step(g, a))
  {
    match a
    case Turn(m) => TurnKeeps(g, m);
    case Fetch(r) => FetchKeeps(g, r);
    case Learn(_, _) => IndexActKeeps(g, a);
    case Report(_) => IndexActKeeps(g, a);
    case Acknowledge(_, _) => IndexActKeeps(g, a);
    case _ => ReadActKeeps(g, a);
  }

  lemma ActKeeps(g: Gate, a: Act)
    requires GateInv(g) && May(g, a)
    ensures GateInv(Step(g, a))
  {
    WorldPrefixes(g.world);
    WorldStays(g, a);
    GateStays(g, a);
  }

  // ----------------------------------------------------------------- runs

  ghost predicate Feasible(acts: seq<Act>)
    decreases |acts|, 0
  {
    acts == [] || (Feasible(acts[..|acts| - 1]) && May(GateAfter(acts[..|acts| - 1]), acts[|acts| - 1]))
  }

  ghost function GateAfter(acts: seq<Act>): Gate
    requires Feasible(acts)
    decreases |acts|, 1
  {
    if acts == [] then START else Step(GateAfter(acts[..|acts| - 1]), acts[|acts| - 1])
  }

  lemma {:induction false} GateRunInv(acts: seq<Act>)
    requires Feasible(acts)
    ensures GateInv(GateAfter(acts))
  {
    if acts == [] {
    } else {
      GateRunInv(acts[..|acts| - 1]);
      ActKeeps(GateAfter(acts[..|acts| - 1]), acts[|acts| - 1]);
    }
  }

  lemma OriginStep(g: Gate, a: Act, r: nat)
    requires May(g, a) && r in Step(g, a).pending && !(a.BeginRead? && a.r == r)
    ensures r in g.pending
    ensures var x, y := g.pending[r], Step(g, a).pending[r];
            x.floor == y.floor && x.began == y.began && x.key == y.key && x.node == y.node
  {
  }

  /** A pending read carries what it noted when it began. */
  lemma {:induction false} ReadOrigin(acts: seq<Act>, r: nat) returns (b: nat)
    requires Feasible(acts) && r in GateAfter(acts).pending
    ensures b < |acts| && Feasible(acts[..b])
    ensures var rd, then' := GateAfter(acts).pending[r], GateAfter(acts[..b]);
            acts[b] == BeginRead(r, rd.node, rd.key) &&
            rd.floor == Max(then'.acked, Served(then'.returned)) && rd.began == |then'.returned|
  {
    var pre, a := acts[..|acts| - 1], acts[|acts| - 1];
    if a.BeginRead? && a.r == r {
      b := |pre|;
    } else {
      OriginStep(GateAfter(pre), a, r);
      b := ReadOrigin(pre, r);
      assert acts[..b] == pre[..b];
    }
  }

  /** Linearizable reads in real time: in every run, across leader changes, a read
      that passes the gate shows the uncompacted run of some log prefix, and that
      prefix contains every write acknowledged and every linearizable read returned
      before the read began. */
  lemma ReadIsLinearizable(acts: seq<Act>, r: nat) returns (b: nat)
    requires Feasible(acts) && acts != [] && acts[|acts| - 1] == Fetch(r)
    ensures b < |acts| && acts[b].BeginRead? && acts[b].r == r && Feasible(acts[..b])
    ensures var g, before := GateAfter(acts), GateAfter(acts[..b]);
            && g.returned != []
            && var rd := g.returned[|g.returned| - 1];
               && rd.key == acts[b].key
               && rd.index <= |g.world.log| && rd.result == Get(Run(g.world.log[..rd.index]), rd.key)
               && before.acked <= rd.index
               && (forall p: nat :: p < |before.returned| ==> before.returned[p].index <= rd.index)
  {
    var pre := acts[..|acts| - 1];
    b := ReadOrigin(pre, r);
    assert acts[..b] == pre[..b];
    GateRunInv(acts);
    var g, before := GateAfter(acts), GateAfter(acts[..b]);
    var q := |g.returned| - 1;
    assert ReturnedOK(g.world.log, g.returned, q);
    forall p: nat | p < |before.returned| ensures before.returned[p].index <= g.returned[q].index {
      ServedBounds(before.returned, p);
    }
  }

  // ------------------------------------------------------- a read that passes

  lemma Proceed(acts: seq<Act>, g: Gate, a: Act) returns (acts': seq<Act>, g': Gate)
    requires Feasible(acts) && g == GateAfter(acts) && May(g, a)
    ensures Feasible(acts') && g' == GateAfter(acts') == Step(g, a) && acts' == acts + [a]
  {
    acts', g' := acts + [a], Step(g, a);
    assert acts'[..|acts'| - 1] == acts;
  }

  const WRITE: RaftCmd := Put("a", "x")

  lemma OneWriteKnown() returns (acts: seq<Act>, g: Gate)
    ensures Feasible(acts) && g == GateAfter(acts)
    ensures g == START.(world := INITIAL.(log := [WRITE], nodes := map[0 := NewNode(8)]),
                        commit := map[0 := 1], known := map[0 := 0])
  {
    acts, g := [], START;
    acts, g := Proceed(acts, g, Turn(Join(0, 8)));
    acts, g := Proceed(acts, g, Turn(Propose(WRITE)));
    acts, g := Proceed(acts, g, Learn(0, 1));
  }

  ghost function Serving(n: Node, known: nat, acked: nat): Gate {
    START.(world := INITIAL.(log := [WRITE], nodes := map[0 := n]),
           commit := map[0 := 1], known := map[0 := known], acked := acked)
  }

  lemma OneWriteApplied(acts: seq<Act>, n: Node, st: WatchNode.Step) returns (acts': seq<Act>, n': Node)
    requires Feasible(acts) && Serving(n, 0, 0) == GateAfter(acts) && n == NewNode(8) && st == ApplyCmd(WRITE, true)
    ensures Feasible(acts') && Serving(n', 0, 0) == GateAfter(acts')
    ensures n'.applied == [WRITE] && n'.store == After(EMPTY, WRITE)
  {
    var g;
    n' := Next(n, st);
    assert map[0 := n][0 := n'] == map[0 := n'];
    assert Retained(n.store, Run(n.applied), WRITE);
    acts', g := Proceed(acts, Serving(n, 0, 0), Turn(OnNode(0, st)));
  }

  /** A node that has applied and acknowledged one write. */
  lemma OneWriteAcknowledged() returns (acts: seq<Act>, n: Node)
    ensures Feasible(acts) && Serving(n, 1, 1) == GateAfter(acts)
    ensures n.applied == [WRITE] && n.store == After(EMPTY, WRITE)
  {
    var g;
    acts, g := OneWriteKnown();
    acts, n := OneWriteApplied(acts, NewNode(8), ApplyCmd(WRITE, true));
    acts, g := Proceed(acts, Serving(n, 0, 0), Report(0));
    assert g == Serving(n, 1, 0);
    acts, g := Proceed(acts, g, Acknowledge(0, 1));
  }

  /** A read that begins there passes the lease and the sample. */
  lemma ReadPasses(acts: seq<Act>, g: Gate, key: string) returns (acts': seq<Act>, g': Gate)
    requires Feasible(acts) && g == GateAfter(acts) && 0 !in g.pending && 0 in g.world.nodes
    requires 0 in g.commit && 0 in g.known && g.commit[0] == g.known[0] == |g.world.log|
    ensures Feasible(acts') && g' == GateAfter(acts') && acts' != [] && May(g', Fetch(0))
    ensures g' == g.(pending := g.pending[0 := Read(0, key, Fetching, Max(g.acked, Served(g.returned)), |g.returned|)])
  {
    acts', g' := Proceed(acts, g, BeginRead(0, 0, key));
    acts', g' := Proceed(acts', g', LeaseValid(0));
    acts', g' := Proceed(acts', g', SampleStatus(0));
  }

  lemma FetchesWrite(g: Gate, n: Node)
    requires n.applied == [WRITE] && n.store == After(EMPTY, WRITE)
    requires g == Serving(n, 1, 1).(pending := map[0 := Read(0, "a", Fetching, 1, 0)])
    ensures May(g, Fetch(0))
    ensures Step(g, Fetch(0)).returned == [Returned("a", 1, 1, 0, (OK, Some(KV("a", "x", 1, 1, false))))]
  {
    PutLaw(EMPTY, "a", "x");
  }

  /** The gate lets a read through, and the read sees the acknowledged write. */
  lemma ReadSeesWrite() returns (acts: seq<Act>)
    ensures Feasible(acts) && acts != [] && acts[|acts| - 1] == Fetch(0)
    ensures GateAfter(acts).returned == [Returned("a", 1, 1, 0, (OK, Some(KV("a", "x", 1, 1, false))))]
  {
    var n, g;
    acts, n := OneWriteAcknowledged();
    acts, g := ReadPasses(acts, Serving(n, 1, 1), "a");
    assert g == Serving(n, 1, 1).(pending := map[0 := Read(0, "a", Fetching, 1, 0)]);
    FetchesWrite(g, n);
    acts, g := Proceed(acts, g, Fetch(0));
  }
}
