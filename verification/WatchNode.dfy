/** The watch protocol of one node as interleaved steps: the applier commits and
    then broadcasts, compaction scans and then erases, snapshots are installed,
    and watchers check, catch up, register, replay, wait, unregister and answer
    (src/watch/watch_hub.cpp, src/raft/state_machine.cpp). */
module WatchNode {
  import opened Records
  import opened Mvcc
  import opened History
  import opened Hub

  // ---------------------------------------------------------------- state

  /** How a Watch call ends.  `seen` is a history variable: no matching event lies
      in (from, seen].  Lagging is the failed catch-up, Overflowed the slow consumer. */
  datatype Outcome =
    | Found(es: seq<WatchEvent>) | Nothing(seen: nat) | Canceled | Compacted | Lagging | Overflowed

  datatype Answer = Answer(code: Code, events: seq<WatchEvent>, currentRevision: nat)

  /** Where a Watch call stands. */
  datatype Pc =
    | Checking                                  // about to compare with compact_rev
    | CatchingUp                                // waiting for the local store to reach `from`
    | Registering                               // about to enter the waiter list
    | Reading                                   // registered, about to read the revision
    | Replaying(cur: nat)                       // about to pin the replay iterator
    | Pinned(cur: nat, pin: map<nat, KV>)       // pinned, about to read compact_rev and scan
    | Waiting(cur: nat)                         // in the long-poll loop
    | Draining(cur: nat)                        // unregistered, about to look at the buffer
    | Leaving(out: Outcome)                     // outcome known, about to unregister
    | Closing(out: Outcome)                     // unregistered, about to return

  /** History variables, read by no step: the part of the buffer from before the
      last snapshot install, the revisions (base, level] the rest covers, the
      command committed but not yet broadcast at registration, the revision of the
      last snapshot that brought the waiting watcher a matching event past the hub
      (0: none did), and whether an event was buffered behind such a gap. */
  datatype Aux =
    Aux(earlier: seq<WatchEvent>, base: nat, level: nat, pend: seq<WatchEvent>, skip: nat, missed: bool)

  datatype Watcher = Watcher(filter: string, from: nat, pc: Pc, buffer: Buffer, aux: Aux)

  datatype Applier = Idle | Committed(es: seq<WatchEvent>) | Pushing(es: seq<WatchEvent>, todo: seq<nat>)

  /** Two history variables: `applied` is the log prefix the store has seen (directly
      or by snapshot), `stream` the events this store has committed since it was
      empty.  What other replicas hold plays no part. */
  datatype Node = Node(
    applied: seq<RaftCmd>, stream: seq<WatchEvent>, store: State, applier: Applier,
    plan: Option<map<nat, KV>>, waiters: seq<nat>, watchers: map<nat, Watcher>, nextId: nat, limit: nat)

  datatype Step =
    | ApplyCmd(cmd: RaftCmd, writeOk: bool)
    | CopyWaiters
    | PushNext
    | ScanHistory(keep: int)
    | EraseHistory(writeOk: bool)
    | Install(prefix: seq<RaftCmd>, history: seq<WatchEvent>, data: SnapshotData)
    | Start(filter: string, request: int)
    | CheckCompacted(id: nat)
    | CaughtUp(id: nat)
    | GiveUp(id: nat)
    | Cancel(id: nat)
    | Register(id: nat)
    | ReadRevision(id: nat)
    | PinIterator(id: nat)
    | FinishReplay(id: nat)
    | Unregister(id: nat)
    | ReadBuffer(id: nat)
    | Return(id: nat)

  function NewNode(limit: nat): Node {
    Node([], [], EMPTY, Idle, None, [], map[], 0, if limit > 0 then limit else MAX_WATCH_EVENTS)
  }

  // ---------------------------------------------------------------- steps

  predicate At(n: Node, id: nat) { id in n.watchers }

  ghost predicate Enabled(n: Node, st: Step) {
    match st
    // on_apply is serial
    case ApplyCmd(_, _) => n.applier.Idle?
    case CopyWaiters => n.applier.Committed?
    case PushNext => n.applier.Pushing?
    case ScanHistory(_) => n.plan.None?
    case EraseHistory(_) => n.plan.Some?
    // braft runs its callbacks one at a time and installs only newer snapshots, whose
    // history continues this node's; the exclusive lock keeps out a compaction or a
    // replay in progress
    case Install(prefix, history, data) =>
      && n.applier.Idle? && n.plan.None? && n.applied <= prefix && n.stream <= history
      && Inv(Load(data)) && Recorded(history, Load(data))
      && forall id :: id in n.watchers ==> !n.watchers[id].pc.Pinned?
    case Start(_, _) => true
    case CheckCompacted(id) => At(n, id) && n.watchers[id].pc.Checking?
    case CaughtUp(id) =>
      At(n, id) && n.watchers[id].pc.CatchingUp? && n.watchers[id].from <= n.store.revision
    case GiveUp(id) => At(n, id) && n.watchers[id].pc.CatchingUp?
    case Cancel(id) => At(n, id) && n.watchers[id].pc.CatchingUp?
    case Register(id) => At(n, id) && n.watchers[id].pc.Registering?
    case ReadRevision(id) => At(n, id) && n.watchers[id].pc.Reading?
    case PinIterator(id) => At(n, id) && n.watchers[id].pc.Replaying?
    case FinishReplay(id) => At(n, id) && n.watchers[id].pc.Pinned?
    case Unregister(id) => At(n, id) && (n.watchers[id].pc.Waiting? || n.watchers[id].pc.Leaving?)
    case ReadBuffer(id) => At(n, id) && n.watchers[id].pc.Draining?
    case Return(id) => At(n, id) && n.watchers[id].pc.Closing?
  }

  function Move(n: Node, id: nat, pc: Pc): Node
    requires At(n, id)
  {
    n.(watchers := n.watchers[id := n.watchers[id].(pc := pc)])
  }

  function Unsent(n: Node): seq<WatchEvent> {
    if n.applier.Committed? then n.applier.es else []
  }

  function EnterHub(n: Node, w: Watcher): Watcher {
    var base := n.store.revision - |Unsent(n)|;
    w.(pc := if w.from > 0 then Reading else Waiting(0), buffer := Buffer([], false),
       aux := Aux([], Clamp(base), Clamp(base), Unsent(n), 0, false))
  }

  function OnPush(w: Watcher, es: seq<WatchEvent>, limit: nat, revision: nat): Watcher {
    var b := PushAll(w.buffer, w.filter, es, limit);
    if w.aux.skip == 0 then w.(buffer := b, aux := w.aux.(level := revision))
    else if Buffering(w.pc) && !b.overflow && Select(es, w.filter) != []
    then w.(buffer := b, aux := w.aux.(missed := true))
    else w.(buffer := b)
  }

  /** The hub is not told of an install.  A watcher before its replay will find the
      snapshot's revision; one past it only learns of what is pushed later. */
  function OnInstall(w: Watcher, brought: seq<WatchEvent>, revision: nat): Watcher {
    match w.pc
    case Reading => w.(aux := w.aux.(earlier := w.buffer.events, base := revision, level := revision))
    case Replaying(_) => w.(aux := w.aux.(earlier := w.buffer.events, base := revision, level := revision))
    case Waiting(_) =>
      if w.aux.missed then w
      else if w.aux.skip == 0 && Select(brought, w.filter) == [] then w.(aux := w.aux.(level := revision))
      else w.(aux := w.aux.(skip := revision))
    case _ => w
  }

  function ReplayOutcome(n: Node, w: Watcher): Pc
    requires w.pc.Pinned?
  {
    var (code, es) := Replay(w.pc.pin, n.store.compactRev, w.from, w.pc.cur, w.filter, n.limit);
    if code == COMPACTED then Leaving(Compacted)
    else if es != [] then Leaving(Found(es))
    else Waiting(w.pc.cur)
  }

  function BufferOutcome(w: Watcher): Outcome
    requires w.pc.Draining?
  {
    if w.buffer.overflow then Overflowed
    else if w.buffer.events != [] then Found(w.buffer.events)
    else Nothing(Max(w.pc.cur, w.aux.level))
  }

  ghost function Next(n: Node, st: Step): Node
    requires Enabled(n, st)
  {
    match st
    case ApplyCmd(cmd, ok) =>
      var (t, res) := Apply(n.store, cmd, ok);
      n.(applied := n.applied + [cmd], stream := n.stream + res.events, store := t,
         applier := if res.events == [] then Idle else Committed(res.events))
    case CopyWaiters => n.(applier := Pushing(n.applier.es, n.waiters))
    case PushNext =>
      var es, todo := n.applier.es, n.applier.todo;
      if todo == [] then n.(applier := Idle)
      else
        var n' := n.(applier := Pushing(es, todo[1..]));
        if !At(n, todo[0]) then n'
        else n'.(watchers := n.watchers[todo[0] :=
                   OnPush(n.watchers[todo[0]], es, n.limit, n.store.revision)])
    case ScanHistory(keep) => n.(plan := Some(Victims(n.store, keep)))
    case EraseHistory(ok) => n.(store := if ok then Compact(n.store, n.plan.value) else n.store, plan := None)
    case Install(prefix, history, data) =>
      n.(applied := prefix, stream := history, store := Load(data),
         watchers := map id | id in n.watchers ::
                       OnInstall(n.watchers[id], history[|n.stream|..], data.revision))
    case Start(filter, request) =>
      var from := Clamp(request);
      n.(watchers := n.watchers[n.nextId :=
           Watcher(filter, from, if from > 0 then Checking else Registering,
                   Buffer([], false), Aux([], 0, 0, [], 0, false))],
         nextId := n.nextId + 1)
    case CheckCompacted(id) =>
      Move(n, id, if n.store.compactRev > n.watchers[id].from then Closing(Compacted) else CatchingUp)
    case CaughtUp(id) => Move(n, id, Registering)
    case GiveUp(id) => Move(n, id, Closing(Lagging))
    case Cancel(id) => Move(n, id, Closing(Canceled))
    case Register(id) =>
      n.(watchers := n.watchers[id := EnterHub(n, n.watchers[id])], waiters := n.waiters + [id])
    case ReadRevision(id) => Move(n, id, Replaying(n.store.revision))
    case PinIterator(id) => Move(n, id, Pinned(n.watchers[id].pc.cur, n.store.hist))
    case FinishReplay(id) => Move(n, id, ReplayOutcome(n, n.watchers[id]))
    case Unregister(id) =>
      var pc := n.watchers[id].pc;
      Move(n, id, if pc.Waiting? then Draining(pc.cur) else Closing(pc.out))
        .(waiters := Without(n.waiters, id))
    case ReadBuffer(id) => Move(n, id, Closing(BufferOutcome(n.watchers[id])))
    case Return(id) => n.(watchers := n.watchers - {id})
  }

  /** What the caller of Watch receives; `revision` is read just before it returns. */
  function AnswerOf(out: Outcome, revision: nat): Answer {
    match out
    case Found(es) => Answer(OK, es, if es == [] then 0 else es[|es| - 1].revision)
    case Nothing(_) => Answer(OK, [], revision)
    case Canceled => Answer(OK, [], 0)
    case Compacted => Answer(COMPACTED, [], revision)
    case Lagging => Answer(INTERNAL, [], revision)
    case Overflowed => Answer(INTERNAL, [], revision)
  }

  // ------------------------------------------------------------ invariant

  /** A complete answer to (filter, from): ascending; what lies above `from` is
      every matching event up to the last one returned; what does not was part of
      the command still unbroadcast at registration. */
  ghost predicate Good(h: seq<WatchEvent>, filter: string, from: nat, pend: seq<WatchEvent>, es: seq<WatchEvent>) {
    && es != [] && Ascending(es) && 1 <= es[|es| - 1].revision <= |h|
    && exists d: nat :: d <= |es| && SplitAt(h, filter, from, pend, es, d)
  }

  ghost predicate SplitAt(h: seq<WatchEvent>, filter: string, from: nat, pend: seq<WatchEvent>,
                          es: seq<WatchEvent>, d: nat)
    requires es != [] && d <= |es|
  {
    && es[d..] == Select(Window(h, from, es[|es| - 1].revision), filter)
    && forall i :: 0 <= i < d ==> es[i].revision <= from && es[i] in pend && es[i] in h && Matches(filter, es[i])
  }

  /** An answer with a gap: a matching event of (from, last] is not in it. */
  ghost predicate GapIn(h: seq<WatchEvent>, filter: string, from: nat, es: seq<WatchEvent>) {
    && es != [] && es[|es| - 1].revision <= |h|
    && exists i: nat :: from <= i && i + 1 < es[|es| - 1].revision && Unreturned(h, filter, es, i)
  }

  ghost predicate Unreturned(h: seq<WatchEvent>, filter: string, es: seq<WatchEvent>, i: nat) {
    i < |h| && Matches(filter, h[i]) && h[i] !in es
  }

  /** Events at or below `from` belong to the pending command and match. */
  ghost predicate OldPending(filter: string, from: nat, pend: seq<WatchEvent>, es: seq<WatchEvent>) {
    forall e :: e in es && e.revision <= from ==> e in pend && Matches(filter, e)
  }

  /** Matching history events, ascending, none above `top`. */
  ghost predicate Sound(h: seq<WatchEvent>, filter: string, es: seq<WatchEvent>, top: nat) {
    && Ascending(es)
    && forall e :: e in es ==> 1 <= e.revision <= top && e.revision <= |h| && e == h[e.revision - 1] && Matches(filter, e)
  }

  /** Events at or below `from` come from the pending command only. */
  ghost predicate DupsPending(h: seq<WatchEvent>, w: Watcher) {
    && (forall e :: e in w.aux.earlier && e.revision <= w.from ==> e in w.aux.pend)
    && (forall i :: w.aux.base <= i < w.from && i < |h| ==> h[i] in w.aux.pend)
  }

  /** What a waiter that no snapshot has overtaken holds. */
  function Offered(h: seq<WatchEvent>, w: Watcher): seq<WatchEvent> {
    w.aux.earlier + Select(Window(h, w.aux.base, w.aux.level), w.filter)
  }

  /** What was buffered after a snapshot brought events past the hub lies above it. */
  ghost predicate Extras(h: seq<WatchEvent>, w: Watcher) {
    var held := Offered(h, w);
    && held <= w.buffer.events
    && (forall i :: |held| <= i < |w.buffer.events| ==> w.aux.skip < w.buffer.events[i].revision <= |h|)
    && (w.aux.missed <==> |held| < |w.buffer.events|)
  }

  ghost predicate BufferOK(h: seq<WatchEvent>, w: Watcher) {
    && w.aux.base <= w.aux.level <= |h|
    && (!w.buffer.overflow ==>
          Extras(h, w) && Sound(h, w.filter, w.aux.earlier, w.aux.base) && DupsPending(h, w))
  }

  /** A waiter overtaken by a snapshot: a matching event of (level, skip] was never
      offered to it. */
  ghost predicate SkipOK(h: seq<WatchEvent>, w: Watcher) {
    if w.aux.skip == 0 then !w.aux.missed
    else
      && (w.pc.Waiting? || w.pc.Draining?) && w.pc.cur <= w.aux.level < w.aux.skip <= |h|
      && Select(Window(h, w.aux.level, w.aux.skip), w.filter) != []
  }

  predicate InHub(pc: Pc) {
    pc.Reading? || pc.Replaying? || pc.Pinned? || pc.Waiting? || pc.Leaving?
  }

  predicate BeforeHub(pc: Pc) { pc.Checking? || pc.CatchingUp? || pc.Registering? }

  predicate Buffering(pc: Pc) {
    pc.Reading? || pc.Replaying? || pc.Pinned? || pc.Waiting? || pc.Draining?
  }

  ghost predicate PcOK(h: seq<WatchEvent>, compactRev: nat, w: Watcher) {
    match w.pc
    case Checking => 0 < w.from && w.aux.skip == 0
    case CatchingUp => 0 < w.from && w.aux.skip == 0
    case Registering => w.from <= |h| && w.aux.skip == 0
    case Reading => 0 < w.from <= |h|
    case Replaying(cur) => 0 < w.from <= cur <= |h| && (w.aux.base <= cur || w.aux.base <= compactRev)
    case Pinned(cur, pin) =>
      && 0 < w.from <= cur <= |h| && (w.aux.base <= cur || w.aux.base <= compactRev)
      && forall r: nat :: compactRev < r <= cur ==> Mirrors(pin, h, r)
    case Waiting(cur) => cur <= |h| && (w.from > 0 ==> NothingUpTo(h, w, cur))
    case Draining(cur) => cur <= |h| && (w.from > 0 ==> NothingUpTo(h, w, cur))
    case Leaving(out) => !out.Nothing? && w.aux.skip == 0 && !w.aux.missed && (w.from > 0 ==> OutcomeOK(h, w, out))
    case Closing(out) => w.from > 0 ==> OutcomeOK(h, w, out)
  }

  ghost predicate OutcomeOK(h: seq<WatchEvent>, w: Watcher, out: Outcome) {
    match out
    case Found(es) =>
      && OldPending(w.filter, w.from, w.aux.pend, es)
      && if w.aux.missed then GapIn(h, w.filter, w.from, es) else Good(h, w.filter, w.from, w.aux.pend, es)
    case Nothing(seen) => w.from <= seen <= |h| && Select(h[w.from..seen], w.filter) == []
    case Compacted => w.from <= |h|
    case Overflowed => w.from <= |h|
    case _ => true
  }

  ghost predicate NothingUpTo(h: seq<WatchEvent>, w: Watcher, cur: nat) {
    w.from <= cur <= |h| && w.aux.base <= cur && Select(h[w.from..cur], w.filter) == []
  }

  /** Everything but the last `lag` events of the history has reached this waiter. */
  ghost predicate LevelOK(h: seq<WatchEvent>, lag: nat, w: Watcher) {
    lag <= |h| && if w.aux.skip == 0 then w.aux.level == |h| - lag else w.aux.skip <= |h| - lag
  }

  /** `lag` events of the history have not been pushed to this waiter yet; `due`
      says it is on the list being pushed to. */
  ghost predicate WatcherOK(h: seq<WatchEvent>, compactRev: nat, limit: nat, lag: nat, due: bool, w: Watcher) {
    && |w.buffer.events| <= limit
    && PcOK(h, compactRev, w)
    && (Buffering(w.pc) ==> BufferOK(h, w) && SkipOK(h, w) && (InHub(w.pc) || due ==> LevelOK(h, lag, w)))
    && (due ==> !BeforeHub(w.pc))
  }

  predicate Due(n: Node, id: nat) { n.applier.Pushing? && id in n.applier.todo }

  function Lag(n: Node, id: nat): nat {
    if n.applier.Committed? || Due(n, id) then |n.applier.es| else 0
  }

  ghost predicate ApplierOK(n: Node, h: seq<WatchEvent>) {
    !n.applier.Idle? ==>
      && n.applier.es != [] && |n.applier.es| <= |h|
      && n.applier.es == h[|h| - |n.applier.es|..]
      && (n.applier.Pushing? ==> Distinct(n.applier.todo) && forall id :: id in n.applier.todo ==> id < n.nextId)
  }

  ghost predicate HubOK(n: Node) {
    && Distinct(n.waiters)
    && (forall id: nat :: id in n.waiters <==> At(n, id) && InHub(n.watchers[id].pc))
    && (forall id: nat :: At(n, id) ==> id < n.nextId)
  }

  ghost predicate StoreOK(n: Node) {
    && Inv(n.store) && Recorded(n.stream, n.store)
    && (n.plan.Some? ==> Superseded(n.store, n.plan.value))
  }

  ghost predicate WatchersOK(n: Node) {
    forall id: nat :: At(n, id) ==>
      WatcherOK(n.stream, n.store.compactRev, n.limit, Lag(n, id), Due(n, id), n.watchers[id])
  }

  ghost predicate NodeInv(n: Node) {
    && n.limit > 0
    && StoreOK(n)
    && ApplierOK(n, n.stream)
    && HubOK(n)
    && WatchersOK(n)
  }

  // ------------------------------------------------- lemmas on one watcher

  lemma SelectBlank(h: seq<WatchEvent>, filter: string, lo: nat, mid: nat, hi: nat)
    requires lo <= mid <= hi <= |h|
    ensures Select(h[lo..hi], filter) == Select(h[lo..mid], filter) + Select(h[mid..hi], filter)
  {
    assert h[lo..hi] == h[lo..mid] + h[mid..hi];
    SelectConcat(h[lo..mid], h[mid..hi], filter);
  }

  /** The history only grows at its end, so what is known of a watcher stays. */
  lemma GoodStable(h: seq<WatchEvent>, h': seq<WatchEvent>, filter: string, from: nat, pend: seq<WatchEvent>, es: seq<WatchEvent>)
    requires h <= h' && Good(h, filter, from, pend, es)
    ensures Good(h', filter, from, pend, es)
  {
    var d :| 0 <= d <= |es| && SplitAt(h, filter, from, pend, es, d);
    assert Window(h', from, es[|es| - 1].revision) == Window(h, from, es[|es| - 1].revision);
    assert SplitAt(h', filter, from, pend, es, d);
  }

  lemma GapStable(h: seq<WatchEvent>, h': seq<WatchEvent>, filter: string, from: nat, es: seq<WatchEvent>)
    requires h <= h' && GapIn(h, filter, from, es)
    ensures GapIn(h', filter, from, es)
  {
    var i: nat :| from <= i && i + 1 < es[|es| - 1].revision && Unreturned(h, filter, es, i);
    assert Unreturned(h', filter, es, i);
  }

  lemma OutcomeStable(h: seq<WatchEvent>, h': seq<WatchEvent>, w: Watcher, out: Outcome)
    requires h <= h' && OutcomeOK(h, w, out)
    ensures OutcomeOK(h', w, out)
  {
    match out
    case Found(es) =>
      if w.aux.missed { GapStable(h, h', w.filter, w.from, es); }
      else { GoodStable(h, h', w.filter, w.from, w.aux.pend, es); }
    case Nothing(seen) => assert h'[w.from..seen] == h[w.from..seen];
    case _ =>
  }

  lemma PcStable(h: seq<WatchEvent>, h': seq<WatchEvent>, c: nat, c': nat, w: Watcher)
    requires h <= h' && c <= c' && PcOK(h, c, w)
    ensures PcOK(h', c', w)
  {
    match w.pc
    case Pinned(cur, pin) =>
      forall r: nat | c' < r <= cur ensures Mirrors(pin, h', r) { assert Mirrors(pin, h, r); }
    case Waiting(cur) => if w.from <= cur <= |h| { assert h'[w.from..cur] == h[w.from..cur]; }
    case Draining(cur) => if w.from <= cur <= |h| { assert h'[w.from..cur] == h[w.from..cur]; }
    case Leaving(out) => if w.from > 0 { OutcomeStable(h, h', w, out); }
    case Closing(out) => if w.from > 0 { OutcomeStable(h, h', w, out); }
    case _ =>
  }

  lemma WindowStable(h: seq<WatchEvent>, h': seq<WatchEvent>, lo: nat, hi: nat)
    requires h <= h' && hi <= |h|
    ensures Window(h', lo, hi) == Window(h, lo, hi)
  {
    if lo <= hi { assert h'[lo..hi] == h[lo..hi]; }
  }

  lemma BufferStable(h: seq<WatchEvent>, h': seq<WatchEvent>, w: Watcher)
    requires h <= h' && w.from <= |h| && BufferOK(h, w)
    ensures BufferOK(h', w)
  {
    WindowStable(h, h', w.aux.base, w.aux.level);
    assert Offered(h', w) == Offered(h, w);
  }

  lemma SkipStable(h: seq<WatchEvent>, h': seq<WatchEvent>, w: Watcher)
    requires h <= h' && SkipOK(h, w)
    ensures SkipOK(h', w)
  {
    if w.aux.skip > 0 { WindowStable(h, h', w.aux.level, w.aux.skip); }
  }

  lemma FromReached(h: seq<WatchEvent>, c: nat, w: Watcher)
    requires PcOK(h, c, w) && Buffering(w.pc)
    ensures w.from <= |h|
  {
  }

  /** A waiter takes the unbroadcast tail of the history. */
  lemma PushKeeps(h: seq<WatchEvent>, c: nat, limit: nat, es: seq<WatchEvent>, w: Watcher)
    requires Numbered(h, 0) && es != [] && |es| <= |h| && es == h[|h| - |es|..]
    requires WatcherOK(h, c, limit, |es|, true, w)
    ensures WatcherOK(h, c, limit, 0, false, OnPush(w, es, limit, |h|))
  {
    PushAllOrNothing(w.buffer, w.filter, es, limit);
    PushPc(h, c, limit, es, w);
    if Buffering(w.pc) {
      if w.aux.skip == 0 {
        BufferPush(h, limit, es, w);
      } else {
        HeldPush(h, limit, es, w);
      }
    }
  }

  lemma PushPc(h: seq<WatchEvent>, c: nat, limit: nat, es: seq<WatchEvent>, w: Watcher)
    requires PcOK(h, c, w)
    ensures PcOK(h, c, OnPush(w, es, limit, |h|))
  {
    var w' := OnPush(w, es, limit, |h|);
    assert w'.pc == w.pc && w'.from == w.from && w'.filter == w.filter;
    assert w'.aux.base == w.aux.base && w'.aux.skip == w.aux.skip && w'.aux.pend == w.aux.pend;
    assert !Buffering(w.pc) ==> w'.aux.missed == w.aux.missed;
    match w.pc
    case Waiting(cur) => assert w.from > 0 ==> NothingUpTo(h, w', cur);
    case Draining(cur) => assert w.from > 0 ==> NothingUpTo(h, w', cur);
    case Leaving(out) => assert w.from > 0 ==> OutcomeOK(h, w', out);
    case Closing(out) => assert w.from > 0 ==> OutcomeOK(h, w', out);
    case _ =>
  }

  lemma OfferedPush(h: seq<WatchEvent>, es: seq<WatchEvent>, w: Watcher)
    requires |es| <= |h| && es == h[|h| - |es|..] && w.aux.base <= w.aux.level == |h| - |es|
    ensures Offered(h, w.(aux := w.aux.(level := |h|))) == Offered(h, w) + Select(es, w.filter)
  {
    var level := w.aux.level;
    SelectBlank(h, w.filter, w.aux.base, level, |h|);
    assert h[level..|h|] == es;
    Assoc(w.aux.earlier, Select(h[w.aux.base..level], w.filter), Select(es, w.filter));
  }

  lemma BufferPush(h: seq<WatchEvent>, limit: nat, es: seq<WatchEvent>, w: Watcher)
    requires |es| <= |h| && es == h[|h| - |es|..] && |w.buffer.events| <= limit
    requires BufferOK(h, w) && w.aux.skip == 0 && !w.aux.missed && w.aux.level == |h| - |es|
    ensures BufferOK(h, OnPush(w, es, limit, |h|))
  {
    PushAllOrNothing(w.buffer, w.filter, es, limit);
    PushedOverflow(w.buffer, w.filter, es, limit);
    OfferedPush(h, es, w);
    var w' := OnPush(w, es, limit, |h|);
    if !w'.buffer.overflow {
      assert w.buffer.events == Offered(h, w);
      assert w'.buffer.events == Offered(h, w');
    }
  }

  /** After a gap, matching events land behind it. */
  lemma HeldPush(h: seq<WatchEvent>, limit: nat, es: seq<WatchEvent>, w: Watcher)
    requires Numbered(h, 0) && |es| <= |h| && es == h[|h| - |es|..] && |w.buffer.events| <= limit && Buffering(w.pc)
    requires BufferOK(h, w) && SkipOK(h, w) && 0 < w.aux.skip <= |h| - |es|
    ensures BufferOK(h, OnPush(w, es, limit, |h|)) && SkipOK(h, OnPush(w, es, limit, |h|))
  {
    PushAllOrNothing(w.buffer, w.filter, es, limit);
    PushedOverflow(w.buffer, w.filter, es, limit);
    var w' := OnPush(w, es, limit, |h|);
    assert Offered(h, w') == Offered(h, w);
    if !w'.buffer.overflow {
      var held := Offered(h, w);
      assert Numbered(es, |h| - |es|);
      SelectAscending(es, w.filter, |h| - |es|);
      forall i | |held| <= i < |w'.buffer.events|
        ensures w.aux.skip < w'.buffer.events[i].revision <= |h|
      {
        if i >= |w.buffer.events| {
          assert w'.buffer.events[i] == Select(es, w.filter)[i - |w.buffer.events|];
        }
      }
    }
  }

  lemma InstallKeeps(h: seq<WatchEvent>, h': seq<WatchEvent>, c: nat, limit: nat, w: Watcher)
    requires h <= h' && Numbered(h', 0) && c <= |h| && !w.pc.Pinned?
    requires WatcherOK(h, c, limit, 0, false, w)
    ensures WatcherOK(h', |h'|, limit, 0, false, OnInstall(w, h'[|h|..], |h'|))
  {
    if w.pc.Reading? || w.pc.Replaying? {
      InstallEarly(h, h', w);
    } else if w.pc.Waiting? {
      PcStable(h, h', c, |h'|, w);
      InstallWaiting(h, h', c, w);
    } else {
      PcStable(h, h', c, |h'|, w);
      if w.pc.Draining? {
        BufferStable(h, h', w);
        SkipStable(h, h', w);
      }
    }
  }

  lemma InstallEarly(h: seq<WatchEvent>, h': seq<WatchEvent>, w: Watcher)
    requires h <= h' && Numbered(h', 0) && (w.pc.Reading? || w.pc.Replaying?)
    requires BufferOK(h, w) && SkipOK(h, w) && w.from <= |h|
    ensures var w' := OnInstall(w, h'[|h|..], |h'|); BufferOK(h', w') && SkipOK(h', w')
  {
    var w' := OnInstall(w, h'[|h|..], |h'|);
    assert Window(h', |h'|, |h'|) == [];
    if !w.buffer.overflow {
      RebaseSound(h, h', w);
      assert Offered(h', w') == w.buffer.events;
    }
  }

  lemma InstallWaiting(h: seq<WatchEvent>, h': seq<WatchEvent>, c: nat, w: Watcher)
    requires h <= h' && Numbered(h', 0) && w.pc.Waiting? && PcOK(h, c, w) && c <= |h|
    requires BufferOK(h, w) && SkipOK(h, w) && LevelOK(h, 0, w)
    ensures var w' := OnInstall(w, h'[|h|..], |h'|);
            PcOK(h', |h'|, w') && BufferOK(h', w') && SkipOK(h', w') && LevelOK(h', 0, w')
  {
    var brought, w' := h'[|h|..], OnInstall(w, h'[|h|..], |h'|);
    FromReached(h, c, w);
    BufferStable(h, h', w);
    SkipStable(h, h', w);
    PcStable(h, h', c, |h'|, w);
    assert w.from > 0 ==> NothingUpTo(h', w', w.pc.cur);
    if !w.aux.missed && w.aux.skip == 0 && Select(brought, w.filter) == [] {
      NothingBrought(h, h', w);
    } else if !w.aux.missed {
      BroughtSkips(h, h', w);
    }
  }

  lemma NothingBrought(h: seq<WatchEvent>, h': seq<WatchEvent>, w: Watcher)
    requires h <= h' && BufferOK(h', w) && w.aux.level == |h| && !w.aux.missed && w.aux.skip == 0
    requires Select(h'[|h|..], w.filter) == []
    ensures BufferOK(h', w.(aux := w.aux.(level := |h'|)))
  {
    assert h'[|h|..|h'|] == h'[|h|..];
    SelectBlank(h', w.filter, w.aux.base, |h|, |h'|);
    assert Offered(h', w.(aux := w.aux.(level := |h'|))) == Offered(h', w);
  }

  lemma BroughtSkips(h: seq<WatchEvent>, h': seq<WatchEvent>, w: Watcher)
    requires h <= h' && w.pc.Waiting? && BufferOK(h', w) && SkipOK(h', w) && LevelOK(h, 0, w) && !w.aux.missed
    requires w.pc.cur <= |h| && (w.aux.skip > 0 || Select(h'[|h|..], w.filter) != [])
    ensures var w' := w.(aux := w.aux.(skip := |h'|)); BufferOK(h', w') && SkipOK(h', w')
  {
    var w' := w.(aux := w.aux.(skip := |h'|));
    assert Offered(h', w') == Offered(h', w);
    if w.aux.skip == 0 {
      assert h'[|h|..|h'|] == h'[|h|..];
      assert Select([], w.filter) == [];
    } else {
      SelectBlank(h', w.filter, w.aux.level, w.aux.skip, |h'|);
    }
  }

  /** An event offered to the waiter is a matching one of the history, at or below the level. */
  lemma OfferedMember(h: seq<WatchEvent>, w: Watcher, e: WatchEvent)
    requires Numbered(h, 0) && w.aux.base <= w.aux.level <= |h|
    requires Sound(h, w.filter, w.aux.earlier, w.aux.base) && e in Offered(h, w)
    ensures 1 <= e.revision <= w.aux.level && e == h[e.revision - 1] && Matches(w.filter, e)
    ensures e in w.aux.earlier || w.aux.base < e.revision
  {
    if e !in w.aux.earlier {
      var part := h[w.aux.base..w.aux.level];
      assert e in Select(part, w.filter);
      SelectAscending(part, w.filter, w.aux.base);
      SelectMember(part, w.filter, e);
    }
  }

  lemma OfferedAscending(h: seq<WatchEvent>, w: Watcher)
    requires Numbered(h, 0) && w.aux.base <= w.aux.level <= |h|
    requires Sound(h, w.filter, w.aux.earlier, w.aux.base)
    ensures Ascending(Offered(h, w))
  {
    var was, part := w.aux.earlier, Select(h[w.aux.base..w.aux.level], w.filter);
    SelectAscending(h[w.aux.base..w.aux.level], w.filter, w.aux.base);
    var all: seq<WatchEvent> := was + part;
    forall i, j | 0 <= i < j < |all| ensures all[i].revision < all[j].revision {
      if i < |was| <= j { assert was[i] in was; }
    }
  }

  lemma RebaseSound(h: seq<WatchEvent>, h': seq<WatchEvent>, w: Watcher)
    requires h <= h' && Numbered(h', 0) && BufferOK(h, w) && !w.buffer.overflow && !w.aux.missed
    ensures Sound(h', w.filter, w.buffer.events, |h'|)
    ensures OldPending(w.filter, w.from, w.aux.pend, w.buffer.events)
  {
    OfferedAscending(h, w);
    assert w.buffer.events == Offered(h, w);
    forall e | e in w.buffer.events
      ensures 1 <= e.revision <= |h| && e == h[e.revision - 1] && Matches(w.filter, e)
      ensures e.revision <= w.from ==> e in w.aux.pend
    {
      OfferedMember(h, w, e);
    }
  }

  /** Cutting a replay keeps it complete up to its last event. */
  lemma {:induction false} CutComplete(h: seq<WatchEvent>, filter: string, from: nat, cur: nat, n: nat)
    requires Numbered(h, 0) && from <= cur <= |h|
    requires 0 < n <= |Select(h[from..cur], filter)|
    ensures var es := Select(h[from..cur], filter)[..n];
            var last := es[n - 1].revision;
            from < last <= cur && es == Select(h[from..last], filter)
  {
    var all := Select(h[from..cur], filter);
    assert h[from..cur][..cur - from - 1] == h[from..cur - 1];
    var rest := Select(h[from..cur - 1], filter);
    if n <= |rest| {
      CutComplete(h, filter, from, cur - 1, n);
      assert all[..n] == rest[..n];
    } else {
      assert all[..n] == all && all[n - 1] == h[cur - 1];
    }
  }

  lemma ReplayGood(h: seq<WatchEvent>, filter: string, from: nat, cur: nat, limit: nat, pend: seq<WatchEvent>)
    requires Numbered(h, 0) && from <= cur <= |h| && limit > 0
    ensures var es := Cut(Select(h[from..cur], filter), limit);
            if es == [] then Select(h[from..cur], filter) == []
            else Good(h, filter, from, pend, es) && OldPending(filter, from, pend, es)
  {
    var all := Select(h[from..cur], filter);
    var es := Cut(all, limit);
    if es != [] {
      assert es == all[..|es|];
      CutComplete(h, filter, from, cur, |es|);
      SelectAscending(h[from..cur], filter, from);
      CutGood(h, filter, from, pend, es, es[|es| - 1].revision);
    }
  }

  lemma CutGood(h: seq<WatchEvent>, filter: string, from: nat, pend: seq<WatchEvent>, es: seq<WatchEvent>, last: nat)
    requires Numbered(h, 0) && es != [] && Ascending(es) && last == es[|es| - 1].revision
    requires from < last <= |h| && es == Select(h[from..last], filter)
    ensures Good(h, filter, from, pend, es) && OldPending(filter, from, pend, es)
  {
    SelectAscending(h[from..last], filter, from);
    assert SplitAt(h, filter, from, pend, es, 0) by { assert es[0..] == es; }
  }

  /** A pinned replay over complete history is the stream, and what it decides is right. */
  lemma FinishKeeps(h: seq<WatchEvent>, n: Node, w: Watcher)
    requires Numbered(h, 0) && n.limit > 0 && w.pc.Pinned? && PcOK(h, n.store.compactRev, w) && SkipOK(h, w)
    requires n.store.compactRev <= |h|
    ensures PcOK(h, n.store.compactRev, w.(pc := ReplayOutcome(n, w)))
  {
    var cur, pin := w.pc.cur, w.pc.pin;
    if w.from >= n.store.compactRev {
      EventsInSelect(pin, h, w.from, cur, w.filter);
      ReplayGood(h, w.filter, w.from, cur, n.limit, w.aux.pend);
    }
  }

  /** The buffer of a waiter whose replay found nothing is a complete answer, unless
      it took an event behind a gap. */
  lemma LiveGood(h: seq<WatchEvent>, w: Watcher, cur: nat)
    requires Numbered(h, 0) && w.from > 0 && BufferOK(h, w) && NothingUpTo(h, w, cur)
    requires !w.buffer.overflow && !w.aux.missed && w.buffer.events != []
    ensures Good(h, w.filter, w.from, w.aux.pend, w.buffer.events)
    ensures OldPending(w.filter, w.from, w.aux.pend, w.buffer.events)
  {
    var es := w.buffer.events;
    RebaseSound(h, h, w);
    var last := es[|es| - 1].revision;
    assert es[|es| - 1] in es;
    if last <= w.from {
      AllRepeated(h, w.filter, w.from, w.aux.pend, es);
    } else {
      NoneBetween(h, w, cur, es[|es| - 1]);
      LiveSplit(h, w, cur, last);
    }
  }

  lemma {:induction false} SelectSome(h: seq<WatchEvent>, filter: string, lo: nat, hi: nat) returns (i: nat)
    requires lo <= hi <= |h| && Select(h[lo..hi], filter) != []
    ensures lo <= i < hi && Matches(filter, h[i])
  {
    assert h[lo..hi][..hi - lo - 1] == h[lo..hi - 1];
    if Matches(filter, h[hi - 1]) {
      i := hi - 1;
    } else {
      i := SelectSome(h, filter, lo, hi - 1);
    }
  }

  /** Nothing of (level, skip] is in the buffer. */
  lemma NotBuffered(h: seq<WatchEvent>, w: Watcher, e: WatchEvent)
    requires Numbered(h, 0) && BufferOK(h, w) && !w.buffer.overflow && w.aux.level < e.revision <= w.aux.skip
    ensures e !in w.buffer.events
  {
    var held := Offered(h, w);
    forall j | 0 <= j < |w.buffer.events| ensures w.buffer.events[j] != e {
      if j < |held| {
        assert w.buffer.events[j] == held[j];
        OfferedMember(h, w, held[j]);
      }
    }
  }

  /** A matching event that a snapshot brought past the waiter. */
  lemma SkippedEvent(h: seq<WatchEvent>, w: Watcher) returns (i: nat)
    requires Numbered(h, 0) && BufferOK(h, w) && SkipOK(h, w) && w.aux.skip > 0 && !w.buffer.overflow
    ensures w.aux.level <= i < w.aux.skip <= |h| && Unreturned(h, w.filter, w.buffer.events, i)
  {
    i := SelectSome(h, w.filter, w.aux.level, w.aux.skip);
    NotBuffered(h, w, h[i]);
  }

  lemma LiveGap(h: seq<WatchEvent>, w: Watcher)
    requires Numbered(h, 0) && w.from > 0 && BufferOK(h, w) && SkipOK(h, w) && w.pc.Draining?
    requires NothingUpTo(h, w, w.pc.cur) && !w.buffer.overflow && w.aux.missed
    ensures w.buffer.events != [] && GapIn(h, w.filter, w.from, w.buffer.events)
    ensures OldPending(w.filter, w.from, w.aux.pend, w.buffer.events)
  {
    var es := w.buffer.events;
    var i := SkippedEvent(h, w);
    assert es[|es| - 1].revision > w.aux.skip;
    forall e | e in es && e.revision <= w.from ensures e in w.aux.pend && Matches(w.filter, e) {
      var j :| 0 <= j < |es| && es[j] == e;
      assert e == Offered(h, w)[j];
      OfferedMember(h, w, e);
    }
  }

  lemma AllRepeated(h: seq<WatchEvent>, filter: string, from: nat, pend: seq<WatchEvent>, es: seq<WatchEvent>)
    requires es != [] && Sound(h, filter, es, |h|) && es[|es| - 1].revision <= from
    requires forall e :: e in es && e.revision <= from ==> e in pend
    ensures Good(h, filter, from, pend, es)
  {
    var last := es[|es| - 1];
    assert last in es;
    assert Numbered([], 0);
    if from == last.revision { assert Window(h, from, from) == []; }
    assert Window(h, from, last.revision) == [] && es[|es|..] == [];
    forall i | 0 <= i < |es| ensures es[i].revision <= from && es[i] in h && es[i] in pend && Matches(filter, es[i]) {
      assert es[i] in es;
    }
    assert SplitAt(h, filter, from, pend, es, |es|);
  }

  /** An empty buffer means nothing matching up to everything it was offered. */
  lemma QuietGood(h: seq<WatchEvent>, w: Watcher, cur: nat)
    requires BufferOK(h, w) && NothingUpTo(h, w, cur) && !w.buffer.overflow && w.buffer.events == []
    ensures OutcomeOK(h, w, Nothing(Max(cur, w.aux.level)))
  {
    assert Offered(h, w) == [];
    if cur < w.aux.level {
      SelectBlank(h, w.filter, w.aux.base, cur, w.aux.level);
      SelectBlank(h, w.filter, w.from, cur, w.aux.level);
    }
  }

  /** No matching event lies in (from, cur]. */
  lemma NoneBetween(h: seq<WatchEvent>, w: Watcher, cur: nat, e: WatchEvent)
    requires NothingUpTo(h, w, cur) && 1 <= e.revision <= |h| && e == h[e.revision - 1] && Matches(w.filter, e)
    ensures e.revision <= w.from || cur < e.revision
  {
    if w.from < e.revision <= cur {
      assert h[w.from..cur][e.revision - 1 - w.from] == e;
      SelectMember(h[w.from..cur], w.filter, e);
    }
  }

  lemma LiveSplit(h: seq<WatchEvent>, w: Watcher, cur: nat, last: nat)
    requires Numbered(h, 0) && w.from > 0 && BufferOK(h, w) && NothingUpTo(h, w, cur)
    requires !w.buffer.overflow && !w.aux.missed && w.buffer.events != []
    requires last == w.buffer.events[|w.buffer.events| - 1].revision && w.from < last && cur < last
    ensures Good(h, w.filter, w.from, w.aux.pend, w.buffer.events)
  {
    var es := w.buffer.events;
    RebaseSound(h, h, w);
    assert es == Offered(h, w) && es[|es| - 1] in es;
    OfferedMember(h, w, es[|es| - 1]);
    var head := w.aux.earlier + Select(h[w.aux.base..cur], w.filter);
    LiveTail(h, w.filter, w.aux, w.from, cur, last, es);
    forall i | 0 <= i < |head|
      ensures es[i].revision <= w.from && es[i] in w.aux.pend && es[i] in h && Matches(w.filter, es[i])
    {
      assert es[i] in es && es[i] == head[i];
      HeadOld(h, w, cur, head[i]);
      NoneBetween(h, w, cur, es[i]);
    }
    assert es[|head|..] == Select(Window(h, w.from, last), w.filter);
    assert SplitAt(h, w.filter, w.from, w.aux.pend, es, |head|);
  }

  lemma LiveTail(h: seq<WatchEvent>, filter: string, aux: Aux, from: nat, cur: nat, last: nat, es: seq<WatchEvent>)
    requires Numbered(h, 0) && aux.base <= cur < last <= aux.level <= |h| && from <= cur
    requires Select(h[from..cur], filter) == []
    requires es == aux.earlier + Select(h[aux.base..aux.level], filter)
    requires es != [] && last == es[|es| - 1].revision
    ensures es == aux.earlier + Select(h[aux.base..cur], filter) + Select(h[from..last], filter)
  {
    var head := aux.earlier + Select(h[aux.base..cur], filter);
    SelectBlank(h, filter, aux.base, cur, aux.level);
    SelectBlank(h, filter, from, cur, last);
    Assoc(aux.earlier, Select(h[aux.base..cur], filter), Select(h[cur..aux.level], filter));
    BeyondLast(h, filter, cur, aux.level, last, es, head);
  }

  lemma HeadOld(h: seq<WatchEvent>, w: Watcher, cur: nat, e: WatchEvent)
    requires Numbered(h, 0) && Sound(h, w.filter, w.aux.earlier, w.aux.base)
    requires w.aux.base <= cur <= |h| && e in w.aux.earlier + Select(h[w.aux.base..cur], w.filter)
    ensures e.revision <= cur
  {
    SelectAscending(h[w.aux.base..cur], w.filter, w.aux.base);
  }

  /** Nothing matching follows the last buffered event up to the level. */
  lemma BeyondLast(h: seq<WatchEvent>, filter: string, cur: nat, level: nat, last: nat,
                   es: seq<WatchEvent>, head: seq<WatchEvent>)
    requires Numbered(h, 0) && cur < last <= level <= |h| && es != []
    requires es == head + Select(h[cur..level], filter) && last == es[|es| - 1].revision
    ensures Select(h[cur..level], filter) == Select(h[cur..last], filter)
  {
    SelectBlank(h, filter, cur, last, level);
    var tail := Select(h[last..level], filter);
    SelectAscending(h[last..level], filter, last);
  }
}
