/** Every step of a node keeps the watch invariant, so every answer given in any
    interleaving is complete (src/watch/watch_hub.cpp). */
module WatchSteps {
  import opened Records
  import opened Mvcc
  import opened History
  import opened Hub
  import opened WatchNode

  lemma NodeFacts(n: Node)
    requires NodeInv(n)
    ensures var h := n.stream;
            && |h| == n.store.revision && Numbered(h, 0) && Inv(n.store)
            && n.store.compactRev <= |h| && Recorded(h, n.store)
  {
  }

  /** One watcher changes; the others do not notice. */
  lemma OthersKeep(n: Node, n': Node, id: nat, w: Watcher)
    requires WatchersOK(n) && n'.watchers == n.watchers[id := w] && n'.stream == n.stream
    requires n'.store == n.store && n'.limit == n.limit && n'.applier == n.applier
    requires WatcherOK(n.stream, n.store.compactRev, n.limit, Lag(n, id), Due(n, id), w)
    ensures WatchersOK(n')
  {
    forall i: nat | At(n', i)
      ensures WatcherOK(n'.stream, n'.store.compactRev, n'.limit, Lag(n', i), Due(n', i), n'.watchers[i])
    {
      assert Lag(n', i) == Lag(n, i) && Due(n', i) == Due(n, i);
      if i != id { assert At(n, i); }
    }
  }

  /** One watcher moves without entering or leaving the list. */
  lemma ReplaceKeeps(n: Node, id: nat, w: Watcher)
    requires NodeInv(n) && At(n, id) && InHub(w.pc) == InHub(n.watchers[id].pc)
    requires WatcherOK(n.stream, n.store.compactRev, n.limit, Lag(n, id), Due(n, id), w)
    ensures NodeInv(n.(watchers := n.watchers[id := w]))
  {
    var n' := n.(watchers := n.watchers[id := w]);
    OthersKeep(n, n', id, w);
    SameHub(n, n');
  }

  // ------------------------------------------------------------ the applier

  lemma ApplyStore(n: Node, cmd: RaftCmd, ok: bool)
    requires StoreOK(n) && Enabled(n, ApplyCmd(cmd, ok))
    ensures var n' := Next(n, ApplyCmd(cmd, ok));
            StoreOK(n') && n'.store.compactRev == n.store.compactRev
  {
    ApplyKeepsInv(n.store, cmd, ok);
    RecordedStep(n.stream, n.store, cmd, ok);
    ApplyGrows(n.store, cmd, ok);
    if n.plan.Some? { ApplyKeepsSuperseded(n.store, cmd, ok, n.plan.value); }
  }

  lemma ApplyWatchers(n: Node, cmd: RaftCmd, ok: bool)
    requires WatchersOK(n) && Enabled(n, ApplyCmd(cmd, ok))
    requires Next(n, ApplyCmd(cmd, ok)).store.compactRev == n.store.compactRev
    ensures WatchersOK(Next(n, ApplyCmd(cmd, ok)))
  {
    var n', es := Next(n, ApplyCmd(cmd, ok)), Apply(n.store, cmd, ok).1.events;
    forall i: nat | At(n', i)
      ensures WatcherOK(n'.stream, n'.store.compactRev, n'.limit, Lag(n', i), Due(n', i), n'.watchers[i])
    {
      assert At(n, i) && Lag(n', i) == |es| && !Due(n', i);
      GrowKeeps(n.stream, es, n.store.compactRev, n.limit, n.watchers[i]);
    }
  }

  lemma ApplyStep(n: Node, cmd: RaftCmd, ok: bool)
    requires NodeInv(n) && Enabled(n, ApplyCmd(cmd, ok))
    ensures NodeInv(Next(n, ApplyCmd(cmd, ok)))
  {
    var n', es := Next(n, ApplyCmd(cmd, ok)), Apply(n.store, cmd, ok).1.events;
    ApplyStore(n, cmd, ok);
    ApplyWatchers(n, cmd, ok);
    assert es == n'.stream[|n'.stream| - |es|..];
    SameHub(n, n');
  }

  lemma SameHub(n: Node, n': Node)
    requires HubOK(n) && n'.waiters == n.waiters && n'.nextId == n.nextId
    requires n'.watchers.Keys == n.watchers.Keys
    requires forall i: nat :: At(n, i) ==> InHub(n'.watchers[i].pc) == InHub(n.watchers[i].pc)
    ensures HubOK(n')
  {
    assert forall i: nat :: At(n', i) <==> At(n, i);
  }

  lemma GrowKeeps(h: seq<WatchEvent>, es: seq<WatchEvent>, c: nat, limit: nat, w: Watcher)
    requires WatcherOK(h, c, limit, 0, false, w)
    ensures WatcherOK(h + es, c, limit, |es|, false, w)
  {
    PcStable(h, h + es, c, c, w);
    if Buffering(w.pc) {
      FromReached(h, c, w);
      BufferStable(h, h + es, w);
      SkipStable(h, h + es, w);
    }
  }

  lemma CopyStep(n: Node)
    requires NodeInv(n) && Enabled(n, CopyWaiters)
    ensures NodeInv(Next(n, CopyWaiters))
  {
    var n' := Next(n, CopyWaiters);
    forall i: nat | At(n', i)
      ensures WatcherOK(n'.stream, n'.store.compactRev, n'.limit, Lag(n', i), Due(n', i), n'.watchers[i])
    {
      assert At(n, i) && Due(n', i) == InHub(n.watchers[i].pc);
    }
    forall i | i in n'.applier.todo ensures i < n'.nextId { assert At(n, i); }
    assert forall i: nat :: At(n', i) <==> At(n, i);
  }

  lemma PushOne(n: Node, i: nat)
    requires WatchersOK(n) && ApplierOK(n, n.stream) && Numbered(n.stream, 0) && |n.stream| == n.store.revision
    requires Enabled(n, PushNext) && At(n, i)
    ensures var n' := Next(n, PushNext);
            At(n', i) &&
            WatcherOK(n.stream, n'.store.compactRev, n'.limit, Lag(n', i), Due(n', i), n'.watchers[i])
  {
    var n', todo := Next(n, PushNext), n.applier.todo;
    assert WatcherOK(n.stream, n.store.compactRev, n.limit, Lag(n, i), Due(n, i), n.watchers[i]);
    if todo != [] && i == todo[0] {
      assert !Due(n', i);
      PushKeeps(n.stream, n.store.compactRev, n.limit, n.applier.es, n.watchers[i]);
    } else if todo != [] {
      assert i in todo <==> i in todo[1..];
      assert Due(n', i) == Due(n, i);
    }
  }

  lemma PushWatchers(n: Node)
    requires NodeInv(n) && Enabled(n, PushNext)
    ensures WatchersOK(Next(n, PushNext))
  {
    var n' := Next(n, PushNext);
    NodeFacts(n);
    forall i: nat | At(n', i)
      ensures WatcherOK(n'.stream, n'.store.compactRev, n'.limit, Lag(n', i), Due(n', i), n'.watchers[i])
    {
      assert At(n, i);
      PushOne(n, i);
    }
  }

  lemma PushApplier(n: Node)
    requires ApplierOK(n, n.stream) && HubOK(n) && Enabled(n, PushNext)
    ensures ApplierOK(Next(n, PushNext), n.stream) && HubOK(Next(n, PushNext))
  {
    SameHub(n, Next(n, PushNext));
    assert n.applier.todo != [] ==> forall id :: id in n.applier.todo[1..] ==> id in n.applier.todo;
  }

  lemma PushStep(n: Node)
    requires NodeInv(n) && Enabled(n, PushNext)
    ensures NodeInv(Next(n, PushNext))
  {
    PushWatchers(n);
    PushApplier(n);
  }

  // ------------------------------------------------ compaction and snapshots

  lemma StoreStep(n: Node, n': Node)
    requires NodeInv(n) && n' == n.(store := n'.store, plan := n'.plan) && StoreOK(n')
    requires n.store.compactRev <= n'.store.compactRev
    ensures NodeInv(n')
  {
    forall i: nat | At(n', i)
      ensures WatcherOK(n'.stream, n'.store.compactRev, n'.limit, Lag(n', i), Due(n', i), n'.watchers[i])
    {
      assert At(n, i) && Lag(n', i) == Lag(n, i) && Due(n', i) == Due(n, i);
      PcStable(n.stream, n.stream, n.store.compactRev, n'.store.compactRev, n.watchers[i]);
    }
    assert forall i: nat :: At(n', i) <==> At(n, i);
  }

  lemma EraseStore(n: Node, ok: bool)
    requires StoreOK(n) && Enabled(n, EraseHistory(ok))
    ensures var n' := Next(n, EraseHistory(ok)); StoreOK(n') && n.store.compactRev <= n'.store.compactRev
  {
    CompactKeepsInv(n.store, n.plan.value);
  }

  lemma CompactionStep(n: Node, st: Step)
    requires NodeInv(n) && Enabled(n, st) && (st.ScanHistory? || st.EraseHistory?)
    ensures NodeInv(Next(n, st))
  {
    match st
    case ScanHistory(keep) =>
      ScanSupersedes(n.store, keep);
      StoreStep(n, Next(n, st));
    case EraseHistory(ok) =>
      EraseStore(n, ok);
      StoreStep(n, Next(n, st));
  }

  lemma InstallWatchers(n: Node, prefix: seq<RaftCmd>, history: seq<WatchEvent>, data: SnapshotData)
    requires WatchersOK(n) && Enabled(n, Install(prefix, history, data)) && n.store.compactRev <= |n.stream|
    ensures WatchersOK(Next(n, Install(prefix, history, data)))
  {
    var n' := Next(n, Install(prefix, history, data));
    assert |history| == data.revision == n'.store.compactRev;
    forall i: nat | At(n', i)
      ensures WatcherOK(history, n'.store.compactRev, n'.limit, Lag(n', i), Due(n', i), n'.watchers[i])
    {
      assert At(n, i);
      InstallKeeps(n.stream, history, n.store.compactRev, n.limit, n.watchers[i]);
    }
  }

  lemma InstallStep(n: Node, prefix: seq<RaftCmd>, history: seq<WatchEvent>, data: SnapshotData)
    requires NodeInv(n) && Enabled(n, Install(prefix, history, data))
    ensures NodeInv(Next(n, Install(prefix, history, data)))
  {
    NodeFacts(n);
    InstallWatchers(n, prefix, history, data);
    SameHub(n, Next(n, Install(prefix, history, data)));
  }

  // --------------------------------------------------------------- watchers

  lemma StartHub(n: Node, filter: string, request: int)
    requires HubOK(n)
    ensures HubOK(Next(n, Start(filter, request)))
  {
    var n' := Next(n, Start(filter, request));
    assert !At(n, n.nextId);
    assert n.nextId !in n.waiters;
    assert forall i: nat :: At(n', i) <==> At(n, i) || i == n.nextId;
  }

  lemma StartStep(n: Node, filter: string, request: int)
    requires NodeInv(n)
    ensures NodeInv(Next(n, Start(filter, request)))
  {
    var n' := Next(n, Start(filter, request));
    StartHub(n, filter, request);
    forall i: nat | At(n', i)
      ensures WatcherOK(n'.stream, n'.store.compactRev, n'.limit, Lag(n', i), Due(n', i), n'.watchers[i])
    {
      assert Lag(n', i) == Lag(n, i) && Due(n', i) == Due(n, i);
      if i != n.nextId { assert At(n, i); }
    }
  }

  lemma RegisterHub(n: Node, id: nat)
    requires HubOK(n) && Enabled(n, Register(id))
    ensures HubOK(Next(n, Register(id)))
  {
    var n' := Next(n, Register(id));
    assert At(n, id) && id !in n.waiters;
    assert forall i: nat :: At(n', i) <==> At(n, i);
  }

  lemma RegisterStep(n: Node, id: nat)
    requires NodeInv(n) && Enabled(n, Register(id))
    ensures NodeInv(Next(n, Register(id)))
  {
    NodeFacts(n);
    assert At(n, id) && Lag(n, id) == |Unsent(n)| && !Due(n, id);
    EnterOK(n, n.stream, n.watchers[id]);
    OthersKeep(n, Next(n, Register(id)), id, EnterHub(n, n.watchers[id]));
    RegisterHub(n, id);
  }

  lemma EnterOK(n: Node, h: seq<WatchEvent>, w: Watcher)
    requires |h| == n.store.revision && w.from <= |h|
    requires |Unsent(n)| <= |h| && Unsent(n) == h[|h| - |Unsent(n)|..]
    ensures WatcherOK(h, n.store.compactRev, n.limit, |Unsent(n)|, false, EnterHub(n, w))
  {
    var w', es := EnterHub(n, w), Unsent(n);
    assert h[w'.aux.base..w'.aux.level] == [];
    forall i | w'.aux.base <= i < w'.from && i < |h| ensures h[i] in w'.aux.pend {
      assert h[i] == es[i - w'.aux.base];
    }
  }

  lemma UnregisterHub(n: Node, id: nat)
    requires HubOK(n) && Enabled(n, Unregister(id))
    ensures HubOK(Next(n, Unregister(id)))
  {
    var n' := Next(n, Unregister(id));
    WithoutDistinct(n.waiters, id);
    forall i: nat ensures i in n'.waiters <==> At(n', i) && InHub(n'.watchers[i].pc) {
      assert i in n.waiters <==> At(n, i) && InHub(n.watchers[i].pc);
      assert i in n'.waiters <==> i in n.waiters && i != id;
    }
    forall i: nat | At(n', i) ensures i < n'.nextId { assert At(n, i); }
  }

  lemma UnregisterStep(n: Node, id: nat)
    requires NodeInv(n) && Enabled(n, Unregister(id))
    ensures NodeInv(Next(n, Unregister(id)))
  {
    UnregisterHub(n, id);
    UnregisterWatchers(n, id);
  }

  lemma UnregisterWatchers(n: Node, id: nat)
    requires WatchersOK(n) && Enabled(n, Unregister(id))
    ensures WatchersOK(Next(n, Unregister(id)))
  {
    assert At(n, id);
    LeaveOK(n.stream, n.store.compactRev, n.limit, Lag(n, id), Due(n, id), n.watchers[id]);
    OthersKeep(n, Next(n, Unregister(id)), id, Next(n, Unregister(id)).watchers[id]);
  }

  lemma LeaveOK(h: seq<WatchEvent>, c: nat, limit: nat, lag: nat, due: bool, w: Watcher)
    requires WatcherOK(h, c, limit, lag, due, w) && (w.pc.Waiting? || w.pc.Leaving?)
    ensures WatcherOK(h, c, limit, lag, due,
                      w.(pc := if w.pc.Waiting? then Draining(w.pc.cur) else Closing(w.pc.out)))
  {
    var pc := if w.pc.Waiting? then Draining(w.pc.cur) else Closing(w.pc.out);
    assert Offered(h, w.(pc := pc)) == Offered(h, w);
    if w.pc.Leaving? && w.from > 0 { assert OutcomeOK(h, w.(pc := pc), w.pc.out); }
  }

  lemma ReturnStep(n: Node, id: nat)
    requires NodeInv(n) && Enabled(n, Return(id))
    ensures NodeInv(Next(n, Return(id)))
  {
    var n' := Next(n, Return(id));
    forall i: nat | At(n', i)
      ensures WatcherOK(n'.stream, n'.store.compactRev, n'.limit, Lag(n', i), Due(n', i), n'.watchers[i])
    {
      assert At(n, i) && Lag(n', i) == Lag(n, i) && Due(n', i) == Due(n, i);
    }
    assert forall i: nat :: At(n', i) <==> At(n, i) && i != id;
  }

  lemma MoveKeeps(n: Node, id: nat, pc: Pc)
    requires NodeInv(n) && At(n, id)
    requires InHub(pc) == InHub(n.watchers[id].pc)
    requires Buffering(pc) ==>
               n.watchers[id].pc.Reading? || n.watchers[id].pc.Replaying? || n.watchers[id].pc.Pinned?
    requires BeforeHub(pc) ==> BeforeHub(n.watchers[id].pc)
    requires PcOK(n.stream, n.store.compactRev, n.watchers[id].(pc := pc))
    ensures NodeInv(Move(n, id, pc))
  {
    ReplaceKeeps(n, id, n.watchers[id].(pc := pc));
  }

  lemma CheckStep(n: Node, id: nat)
    requires NodeInv(n) && Enabled(n, CheckCompacted(id))
    ensures NodeInv(Next(n, CheckCompacted(id)))
  {
    NodeFacts(n);
    assert At(n, id);
    MoveKeeps(n, id, if n.store.compactRev > n.watchers[id].from then Closing(Compacted) else CatchingUp);
  }

  lemma CaughtUpStep(n: Node, id: nat)
    requires NodeInv(n) && Enabled(n, CaughtUp(id))
    ensures NodeInv(Next(n, CaughtUp(id)))
  {
    NodeFacts(n);
    assert At(n, id);
    MoveKeeps(n, id, Registering);
  }

  lemma GiveUpStep(n: Node, st: Step, id: nat, out: Outcome)
    requires NodeInv(n) && Enabled(n, st)
    requires (st == GiveUp(id) && out == Lagging) || (st == Cancel(id) && out == Canceled)
    ensures NodeInv(Next(n, st))
  {
    assert At(n, id);
    MoveKeeps(n, id, Closing(out));
  }

  lemma ReadStep(n: Node, id: nat)
    requires NodeInv(n) && Enabled(n, ReadRevision(id))
    ensures NodeInv(Next(n, ReadRevision(id)))
  {
    NodeFacts(n);
    assert At(n, id);
    MoveKeeps(n, id, Replaying(n.store.revision));
  }

  lemma PinStep(n: Node, id: nat)
    requires NodeInv(n) && Enabled(n, PinIterator(id))
    ensures NodeInv(Next(n, PinIterator(id)))
  {
    NodeFacts(n);
    assert At(n, id);
    PinOK(n, n.stream, n.watchers[id]);
    MoveKeeps(n, id, Pinned(n.watchers[id].pc.cur, n.store.hist));
  }

  lemma FinishStep(n: Node, id: nat)
    requires NodeInv(n) && Enabled(n, FinishReplay(id))
    ensures NodeInv(Next(n, FinishReplay(id)))
  {
    NodeFacts(n);
    assert At(n, id);
    FinishKeeps(n.stream, n, n.watchers[id]);
    MoveKeeps(n, id, ReplayOutcome(n, n.watchers[id]));
  }

  lemma BufferStep(n: Node, id: nat)
    requires NodeInv(n) && Enabled(n, ReadBuffer(id))
    ensures NodeInv(Next(n, ReadBuffer(id)))
  {
    NodeFacts(n);
    assert At(n, id);
    var w := n.watchers[id];
    DrainedOK(n.stream, n.store.compactRev, w);
    MoveKeeps(n, id, Closing(BufferOutcome(w)));
  }

  /** What a drained buffer decides is right. */
  lemma DrainedOK(h: seq<WatchEvent>, c: nat, w: Watcher)
    requires Numbered(h, 0) && w.pc.Draining? && PcOK(h, c, w) && BufferOK(h, w) && SkipOK(h, w)
    ensures PcOK(h, c, w.(pc := Closing(BufferOutcome(w))))
  {
    if w.from > 0 && !w.buffer.overflow {
      if w.aux.missed {
        LiveGap(h, w);
      } else if w.buffer.events != [] {
        LiveGood(h, w, w.pc.cur);
      } else {
        QuietGood(h, w, w.pc.cur);
      }
    }
  }

  lemma PinOK(n: Node, h: seq<WatchEvent>, w: Watcher)
    requires Inv(n.store) && Recorded(h, n.store) && w.pc.Replaying? && PcOK(h, n.store.compactRev, w)
    ensures PcOK(h, n.store.compactRev, w.(pc := Pinned(w.pc.cur, n.store.hist)))
  {
    forall r | n.store.compactRev < r <= w.pc.cur
      ensures Mirrors(n.store.hist, h, r)
    {
      HistoryIsStream(n.store, h, r);
    }
  }

  /** The steps of the applier, of compaction and of snapshots. */
  predicate ByServer(st: Step) {
    st.ApplyCmd? || st.CopyWaiters? || st.PushNext? || st.ScanHistory? || st.EraseHistory? || st.Install?
  }

  lemma ServerKeeps(n: Node, st: Step)
    requires NodeInv(n) && Enabled(n, st) && ByServer(st)
    ensures NodeInv(Next(n, st))
  {
    match st
    case ApplyCmd(cmd, ok) => ApplyStep(n, cmd, ok);
    case CopyWaiters => CopyStep(n);
    case PushNext => PushStep(n);
    case ScanHistory(_) => CompactionStep(n, st);
    case EraseHistory(_) => CompactionStep(n, st);
    case Install(prefix, history, data) => InstallStep(n, prefix, history, data);
  }

  lemma WatcherKeeps(n: Node, st: Step)
    requires NodeInv(n) && Enabled(n, st) && !ByServer(st)
    ensures NodeInv(Next(n, st))
  {
    match st
    case Start(filter, request) => StartStep(n, filter, request);
    case Register(id) => RegisterStep(n, id);
    case Unregister(id) => UnregisterStep(n, id);
    case Return(id) => ReturnStep(n, id);
    case CheckCompacted(id) => CheckStep(n, id);
    case CaughtUp(id) => CaughtUpStep(n, id);
    case GiveUp(id) => GiveUpStep(n, st, id, Lagging);
    case Cancel(id) => GiveUpStep(n, st, id, Canceled);
    case ReadRevision(id) => ReadStep(n, id);
    case PinIterator(id) => PinStep(n, id);
    case FinishReplay(id) => FinishStep(n, id);
    case ReadBuffer(id) => BufferStep(n, id);
  }

  /** What every step of the protocol keeps. */
  lemma StepKeeps(n: Node, st: Step)
    requires NodeInv(n) && Enabled(n, st)
    ensures NodeInv(Next(n, st))
  {
    if ByServer(st) { ServerKeeps(n, st); } else { WatcherKeeps(n, st); }
  }
}
