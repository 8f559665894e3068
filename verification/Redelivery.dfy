/** Exactly when a watch can repeat an event its client has already seen, and when
    it can send the client's anchor back: the documented "no loss, no repetition"
    (docs/watch.md) against the code of src/watch/watch_hub.cpp. */
module Redelivery {
  import opened Records
  import opened Mvcc
  import opened History
  import opened Hub
  import opened WatchNode
  import opened WatchSteps
  import opened WatchTheorems
  import opened Schedules

  /** The matching events fit an empty waiter buffer. */
  predicate Fits(es: seq<WatchEvent>, filter: string, limit: nat) { |Select(es, filter)| <= limit }

  /** Visible at registration: the unbroadcast command has a matching event at or
      below `from`, its matching events fit the buffer, nothing matching lies above
      `from`, and `from` is not compacted. */
  ghost predicate Exposed(n: Node, id: nat)
    requires At(n, id)
  {
    var w, h := n.watchers[id], n.stream;
    && (exists e :: e in Unsent(n) && Matches(w.filter, e) && e.revision <= w.from)
    && Fits(Unsent(n), w.filter, n.limit)
    && w.from <= |h| && Select(h[w.from..], w.filter) == []
    && n.store.compactRev <= w.from
  }

  /** Some event of the answer is not news. */
  ghost predicate Repeats(n: Node, id: nat) {
    AnswersEvents(n, id) && Repeating(n.watchers[id], n.watchers[id].pc.out)
  }

  ghost predicate Repeating(w: Watcher, out: Outcome) {
    out.Found? && exists e :: e in out.es && e.revision <= w.from
  }

  /** All events of the answer are older than `from`, and so is its anchor. */
  ghost predicate AnswersBelow(n: Node, id: nat) {
    AnswersEvents(n, id) && forall e :: e in n.watchers[id].pc.out.es ==> e.revision < n.watchers[id].from
  }

  // ----------------------------------------------------- exposed, so possible

  /** After an exposed registration: an empty replay, the pending broadcast, an
      answer with the matching events of the pending command. */
  lemma ExposedAnswers(n: Node, id: nat) returns (steps: seq<Step>, m: Node)
    requires NodeInv(n) && Enabled(n, Register(id)) && n.watchers[id].from > 0
    requires Exposed(n, id)
    ensures Leads(Next(n, Register(id)), steps, m) && AnswersEvents(m, id)
    ensures m.watchers[id].from == n.watchers[id].from
    ensures m.watchers[id].pc.out.es == Select(Unsent(n), n.watchers[id].filter)
  {
    var w, es := n.watchers[id], Unsent(n);
    steps, m := ToPushing(n, id);
    steps, m := PushThrough(Next(n, Register(id)), steps, m, id);
    PushedPending(es, w.filter, w.from, n.limit);
    steps, m := Leave(Next(n, Register(id)), steps, m, id);
  }

  lemma ToPushing(n: Node, id: nat) returns (steps: seq<Step>, m: Node)
    requires NodeInv(n) && Enabled(n, Register(id)) && n.watchers[id].from > 0 && Exposed(n, id)
    ensures Leads(Next(n, Register(id)), steps, m) && NoInstall(steps) && m.limit == n.limit && At(m, id)
    ensures m.applier.Pushing? && m.applier.es == Unsent(n) && Distinct(m.applier.todo) && id in m.applier.todo
    ensures m.watchers[id] == EnterHub(n, n.watchers[id]).(pc := Waiting(n.store.revision))
  {
    NewWaiter(n, id);
    steps, m := ToWaiting(n, id);
    steps, m := Advance(Next(n, Register(id)), steps, m, CopyWaiters);
  }

  lemma NewWaiter(n: Node, id: nat)
    requires HubOK(n) && Enabled(n, Register(id))
    ensures Distinct(n.waiters + [id])
  {
    assert At(n, id) && id !in n.waiters;
  }

  lemma PushedPending(es: seq<WatchEvent>, filter: string, from: nat, limit: nat)
    requires Fits(es, filter, limit) && exists e :: e in es && Matches(filter, e) && e.revision <= from
    ensures PushAll(Buffer([], false), filter, es, limit) == Buffer(Select(es, filter), false)
    ensures Select(es, filter) != [] && exists e :: e in Select(es, filter) && e.revision <= from
  {
    PushAllOrNothing(Buffer([], false), filter, es, limit);
    var e :| e in es && Matches(filter, e) && e.revision <= from;
    SelectMember(es, filter, e);
  }

  lemma ToWaiting(n: Node, id: nat) returns (steps: seq<Step>, m: Node)
    requires NodeInv(n) && Enabled(n, Register(id)) && n.watchers[id].from > 0 && Exposed(n, id)
    ensures Leads(Next(n, Register(id)), steps, m) && NoInstall(steps) && At(m, id)
    ensures m.applier == n.applier && m.limit == n.limit && m.waiters == n.waiters + [id]
    ensures m.watchers[id] == EnterHub(n, n.watchers[id]).(pc := Waiting(n.store.revision))
  {
    NodeFacts(n);
    var w := EnterHub(n, n.watchers[id]);
    EmptyReplay(n, n.stream, w.(pc := Pinned(n.store.revision, n.store.hist)));
    var start := Next(n, Register(id));
    steps, m := ReplayNothing(start, [], start, id, w);
  }

  lemma NothingStored(s: State, h: seq<WatchEvent>, filter: string, from: nat)
    requires Inv(s) && Recorded(h, s) && s.compactRev <= from <= |h| && Select(h[from..], filter) == []
    ensures EventsIn(s.hist, from, |h|, filter) == []
  {
    forall r | from < r <= |h| ensures Mirrors(s.hist, h, r) {
      HistoryIsStream(s, h, r);
    }
    EventsInSelect(s.hist, h, from, |h|, filter);
    assert h[from..|h|] == h[from..];
  }

  /** A replay over complete history in which nothing matches. */
  lemma EmptyReplay(n: Node, h: seq<WatchEvent>, w: Watcher)
    requires w.pc == Pinned(n.store.revision, n.store.hist) && n.limit > 0
    requires Inv(n.store) && Recorded(h, n.store) && n.store.compactRev <= w.from <= |h|
    requires Select(h[w.from..], w.filter) == []
    ensures ReplayOutcome(n, w) == Waiting(w.pc.cur)
  {
    NothingStored(n.store, h, w.filter, w.from);
  }

  lemma ExposedRepeats(n: Node, id: nat) returns (steps: seq<Step>, m: Node)
    requires NodeInv(n) && Enabled(n, Register(id)) && n.watchers[id].from > 0
    requires Exposed(n, id)
    ensures Leads(Next(n, Register(id)), steps, m) && Repeats(m, id)
  {
    steps, m := ExposedAnswers(n, id);
    PushedPending(Unsent(n), n.watchers[id].filter, n.watchers[id].from, n.limit);
  }

  /** When the event at `from` does not match, that answer lies below `from`. */
  lemma ExposedFallsBack(n: Node, id: nat) returns (steps: seq<Step>, m: Node)
    requires NodeInv(n) && Enabled(n, Register(id)) && n.watchers[id].from > 0 && Exposed(n, id)
    requires !Matches(n.watchers[id].filter, n.stream[n.watchers[id].from - 1])
    ensures Leads(Next(n, Register(id)), steps, m) && AnswersBelow(m, id)
  {
    steps, m := ExposedAnswers(n, id);
    NodeFacts(n);
    PendingBelow(n.stream, Unsent(n), n.watchers[id].filter, n.watchers[id].from);
  }

  lemma PendingBelow(h: seq<WatchEvent>, pend: seq<WatchEvent>, filter: string, from: nat)
    requires Numbered(h, 0) && 0 < from <= |h| && |pend| <= |h| && pend == h[|h| - |pend|..]
    requires Select(h[from..], filter) == [] && !Matches(filter, h[from - 1])
    ensures forall e :: e in Select(pend, filter) ==> e.revision < from
  {
    forall e | e in Select(pend, filter) ensures e.revision < from {
      SelectMember(pend, filter, e);
      NotAbove(h, filter, from, e);
    }
  }

  lemma NotAbove(h: seq<WatchEvent>, filter: string, from: nat, e: WatchEvent)
    requires Numbered(h, 0) && 0 < from <= |h| && Select(h[from..], filter) == [] && !Matches(filter, h[from - 1])
    requires e in h && Matches(filter, e)
    ensures e.revision < from
  {
    var i :| 0 <= i < |h| && h[i] == e;
    if i >= from {
      assert h[from..][i - from] == e;
      SelectMember(h[from..], filter, e);
    }
  }

  // ----------------------------------------------------- repeated, so exposed

  /** Every matching event of the pending command is in the list. */
  ghost predicate Delivered(pend: seq<WatchEvent>, filter: string, es: seq<WatchEvent>) {
    forall e :: e in pend && Matches(filter, e) ==> e in es
  }

  /** What a watcher that registered when the store stood at h0 and compactRev c0
      still knows. */
  ghost predicate Remembers(h0: seq<WatchEvent>, c0: nat, pend: seq<WatchEvent>, limit: nat, w: Watcher) {
    && w.from > 0 && w.from <= |h0| && w.aux.pend == pend && !BeforeHub(w.pc)
    && match w.pc
       case Replaying(cur) => cur >= |h0|
       case Pinned(cur, _) => cur >= |h0|
       case Waiting(cur) => cur >= |h0| && c0 <= w.from
       case Draining(cur) => cur >= |h0| && c0 <= w.from
       case Leaving(out) => out.Found? ==> forall e :: e in out.es ==> e.revision > w.from
       case Closing(out) => out.Found? && (exists e :: e in out.es && e.revision <= w.from) ==>
                              Betrays(h0, c0, pend, limit, w, out.es)
       case _ => true
  }

  /** What a repeated event gives away about the registration. */
  ghost predicate Betrays(h0: seq<WatchEvent>, c0: nat, pend: seq<WatchEvent>, limit: nat, w: Watcher, es: seq<WatchEvent>)
    requires w.from <= |h0|
  {
    && c0 <= w.from && Select(h0[w.from..], w.filter) == []
    && Fits(pend, w.filter, limit) && Delivered(pend, w.filter, es)
  }

  ghost predicate Since(h0: seq<WatchEvent>, c0: nat, pend: seq<WatchEvent>, n: Node, id: nat) {
    && NodeInv(n) && h0 <= n.stream && c0 <= n.store.compactRev && id < n.nextId
    && (At(n, id) ==> Remembers(h0, c0, pend, n.limit, n.watchers[id]) && FirstPush(n, n.watchers[id], id))
  }

  /** The command pending at registration is the first one pushed to the waiter: it is
      in the buffer as a whole, or still to come, or marked the buffer overflowed. */
  ghost predicate FirstPush(n: Node, w: Watcher, id: nat) {
    w.buffer.overflow || w.aux.pend == [] || Whole(w, n.limit) ||
    (w.buffer.events == [] && (InHub(w.pc) || Due(n, id) ==> StillPending(n, w, id)))
  }

  ghost predicate Whole(w: Watcher, limit: nat) {
    Fits(w.aux.pend, w.filter, limit) && Delivered(w.aux.pend, w.filter, w.buffer.events)
  }

  predicate StillPending(n: Node, w: Watcher, id: nat) {
    !n.applier.Idle? && w.aux.pend == n.applier.es && (n.applier.Committed? || Due(n, id))
  }

  /** Only a push touches a waiter's buffer; nothing but CopyWaiters makes it due. */
  lemma BufferAlone(n: Node, st: Step, id: nat)
    requires Enabled(n, st) && At(n, id) && At(Next(n, st), id) && id < n.nextId
    requires !st.PushNext? && !BeforeHub(n.watchers[id].pc)
    ensures var w, w' := n.watchers[id], Next(n, st).watchers[id];
            w'.buffer == w.buffer && w'.aux.pend == w.aux.pend && (InHub(w'.pc) ==> InHub(w.pc))
  {
  }

  lemma ApplierAlone(n: Node, st: Step, id: nat)
    requires Enabled(n, st) && !st.PushNext? && !st.CopyWaiters?
    ensures Next(n, st).applier == n.applier || (n.applier.Idle? && !Due(Next(n, st), id))
  {
  }

  lemma FirstPushOther(n: Node, st: Step, id: nat)
    requires Enabled(n, st) && At(n, id) && At(Next(n, st), id) && id < n.nextId
    requires !st.PushNext? && !st.CopyWaiters?
    requires !BeforeHub(n.watchers[id].pc) && FirstPush(n, n.watchers[id], id)
    ensures FirstPush(Next(n, st), Next(n, st).watchers[id], id)
  {
    BufferAlone(n, st, id);
    ApplierAlone(n, st, id);
    OneRequest(n, st, id);
    StepGrows(n, st);
  }

  lemma FirstPushCopied(n: Node, id: nat)
    requires HubOK(n) && Enabled(n, CopyWaiters) && At(n, id) && FirstPush(n, n.watchers[id], id)
    ensures FirstPush(Next(n, CopyWaiters), n.watchers[id], id)
  {
    assert id in n.waiters <==> InHub(n.watchers[id].pc);
  }

  lemma FirstPushStep(n: Node, st: Step, id: nat)
    requires HubOK(n) && Enabled(n, st) && At(n, id) && At(Next(n, st), id) && id < n.nextId
    requires n.applier.Pushing? ==> Distinct(n.applier.todo)
    requires |n.watchers[id].buffer.events| <= n.limit
    requires !BeforeHub(n.watchers[id].pc) && FirstPush(n, n.watchers[id], id)
    ensures FirstPush(Next(n, st), Next(n, st).watchers[id], id)
  {
    match st
    case PushNext => FirstPushed(n, id);
    case CopyWaiters => FirstPushCopied(n, id);
    case _ => FirstPushOther(n, st, id);
  }

  lemma FirstPushed(n: Node, id: nat)
    requires Enabled(n, PushNext) && At(n, id) && Distinct(n.applier.todo)
    requires |n.watchers[id].buffer.events| <= n.limit && FirstPush(n, n.watchers[id], id)
    ensures FirstPush(Next(n, PushNext), Next(n, PushNext).watchers[id], id)
  {
    var todo := n.applier.todo;
    if todo != [] && todo[0] == id {
      PushedWhole(n.watchers[id], n.applier.es, n.limit, n.store.revision);
    } else if todo != [] {
      assert id in todo <==> id in todo[1..];
    }
  }

  lemma PushedWhole(w: Watcher, es: seq<WatchEvent>, limit: nat, revision: nat)
    requires |w.buffer.events| <= limit
    ensures var w' := OnPush(w, es, limit, revision);
            && (w.buffer.overflow ==> w'.buffer.overflow)
            && (w.buffer.events == [] && w.aux.pend == es ==> w'.buffer.overflow || Whole(w', limit))
            && (Whole(w, limit) ==> w'.buffer.overflow || Whole(w', limit))
  {
    PushedOverflow(w.buffer, w.filter, es, limit);
    PushAllOrNothing(w.buffer, w.filter, es, limit);
    forall e | e in es && Matches(w.filter, e) ensures e in Select(es, w.filter) { SelectMember(es, w.filter, e); }
  }

  lemma RememberReplay(h0: seq<WatchEvent>, c0: nat, pend: seq<WatchEvent>, n: Node, h: seq<WatchEvent>, w: Watcher)
    requires Remembers(h0, c0, pend, n.limit, w) && w.pc.Pinned? && PcOK(h, n.store.compactRev, w)
    requires Numbered(h, 0) && c0 <= n.store.compactRev && n.limit > 0
    ensures Remembers(h0, c0, pend, n.limit, w.(pc := ReplayOutcome(n, w)))
  {
    if w.from >= n.store.compactRev {
      EventsInSelect(w.pc.pin, h, w.from, w.pc.cur, w.filter);
      SelectAscending(h[w.from..w.pc.cur], w.filter, w.from);
    }
  }

  lemma RememberBuffer(h0: seq<WatchEvent>, c0: nat, pend: seq<WatchEvent>, n: Node, h: seq<WatchEvent>, w: Watcher,
                       id: nat)
    requires Remembers(h0, c0, pend, n.limit, w) && w.pc.Draining? && PcOK(h, n.store.compactRev, w) && h0 <= h
    requires BufferOK(h, w) && SkipOK(h, w) && Numbered(h, 0) && FirstPush(n, w, id)
    ensures Remembers(h0, c0, pend, n.limit, w.(pc := Closing(BufferOutcome(w))))
  {
    assert h[w.from..w.pc.cur] == h0[w.from..] + h[|h0|..w.pc.cur];
    SelectConcat(h0[w.from..], h[|h0|..w.pc.cur], w.filter);
    DrainedOK(h, n.store.compactRev, w);
    if !w.buffer.overflow && w.buffer.events != [] && pend == [] {
      assert OldPending(w.filter, w.from, [], w.buffer.events);
    }
  }

  lemma RememberMove(h0: seq<WatchEvent>, c0: nat, pend: seq<WatchEvent>, n: Node, st: Step, id: nat)
    requires Enabled(n, st) && At(n, id) && Remembers(h0, c0, pend, n.limit, n.watchers[id])
    requires |h0| <= n.store.revision && st in {ReadRevision(id), PinIterator(id), Unregister(id)}
    ensures Remembers(h0, c0, pend, n.limit, Next(n, st).watchers[id])
  {
  }

  lemma OwnStep(h0: seq<WatchEvent>, c0: nat, pend: seq<WatchEvent>, n: Node, h: seq<WatchEvent>, st: Step, id: nat,
                w: Watcher)
    requires Enabled(n, st) && At(n, id) && w == n.watchers[id] && Remembers(h0, c0, pend, n.limit, w)
    requires PcOK(h, n.store.compactRev, w) && FirstPush(n, w, id)
    requires Buffering(w.pc) ==> BufferOK(h, w) && SkipOK(h, w)
    requires h0 <= h && |h| == n.store.revision && Numbered(h, 0) && c0 <= n.store.compactRev && n.limit > 0
    requires Own(st, id)
    ensures Remembers(h0, c0, pend, n.limit, Next(n, st).watchers[id])
  {
    if st == FinishReplay(id) {
      RememberReplay(h0, c0, pend, n, h, w);
    } else if st == ReadBuffer(id) {
      RememberBuffer(h0, c0, pend, n, h, w, id);
    } else {
      RememberMove(h0, c0, pend, n, st, id);
    }
  }

  /** The steps a registered watcher takes itself. */
  predicate Own(st: Step, id: nat) {
    st in {ReadRevision(id), PinIterator(id), FinishReplay(id), Unregister(id), ReadBuffer(id)}
  }

  lemma OwnKeeps(h0: seq<WatchEvent>, c0: nat, pend: seq<WatchEvent>, n: Node, st: Step, id: nat)
    requires Since(h0, c0, pend, n, id) && Enabled(n, st) && At(n, id) && Own(st, id)
    ensures Remembers(h0, c0, pend, n.limit, Next(n, st).watchers[id])
  {
    NodeFacts(n);
    OwnStep(h0, c0, pend, n, n.stream, st, id, n.watchers[id]);
  }

  lemma CompactRevGrows(n: Node, st: Step)
    requires StoreOK(n) && Enabled(n, st)
    ensures n.store.compactRev <= Next(n, st).store.compactRev
  {
    match st
    case ApplyCmd(cmd, ok) => ApplyGrows(n.store, cmd, ok);
    case EraseHistory(_) => CompactKeepsInv(n.store, n.plan.value);
    case _ =>
  }

  /** Steps of others leave what the watcher remembers alone. */
  lemma OtherStep(n: Node, st: Step, id: nat, h0: seq<WatchEvent>, c0: nat, pend: seq<WatchEvent>)
    requires Enabled(n, st) && At(n, id) && At(Next(n, st), id) && id < n.nextId
    requires !BeforeHub(n.watchers[id].pc) && !Own(st, id)
    requires Remembers(h0, c0, pend, n.limit, n.watchers[id])
    ensures Remembers(h0, c0, pend, n.limit, Next(n, st).watchers[id])
  {
    var w, w' := n.watchers[id], Next(n, st).watchers[id];
    assert w'.pc == w.pc && w'.from == w.from && w'.filter == w.filter && w'.aux.pend == w.aux.pend;
  }

  lemma SinceStep(h0: seq<WatchEvent>, c0: nat, pend: seq<WatchEvent>, n: Node, st: Step, id: nat)
    requires Since(h0, c0, pend, n, id) && Enabled(n, st)
    ensures Since(h0, c0, pend, Next(n, st), id)
  {
    StepKeeps(n, st);
    CompactRevGrows(n, st);
    StepGrows(n, st);
    if At(Next(n, st), id) { RemembersStep(h0, c0, pend, n, st, id); }
  }

  lemma RemembersStep(h0: seq<WatchEvent>, c0: nat, pend: seq<WatchEvent>, n: Node, st: Step, id: nat)
    requires Since(h0, c0, pend, n, id) && Enabled(n, st) && At(Next(n, st), id)
    ensures Remembers(h0, c0, pend, n.limit, Next(n, st).watchers[id])
    ensures FirstPush(Next(n, st), Next(n, st).watchers[id], id)
  {
    StillThere(n, st, id);
    assert |n.watchers[id].buffer.events| <= n.limit;
    FirstPushStep(n, st, id);
    if Own(st, id) {
      OwnKeeps(h0, c0, pend, n, st, id);
    } else {
      OtherStep(n, st, id, h0, c0, pend);
    }
  }

  lemma {:induction false} SinceRun(h0: seq<WatchEvent>, c0: nat, pend: seq<WatchEvent>, n: Node, steps: seq<Step>, id: nat)
    requires Since(h0, c0, pend, n, id) && Runs(n, steps)
    ensures Since(h0, c0, pend, Exec(n, steps), id)
  {
    if steps == [] {
    } else {
      SinceRun(h0, c0, pend, n, steps[..|steps| - 1], id);
      SinceStep(h0, c0, pend, Exec(n, steps[..|steps| - 1]), steps[|steps| - 1], id);
    }
  }

  lemma JustRegistered(n: Node, id: nat)
    requires NodeInv(n) && Enabled(n, Register(id)) && n.watchers[id].from > 0
    ensures Since(n.stream, n.store.compactRev, Unsent(n), Next(n, Register(id)), id)
  {
    assert At(n, id);
    StepKeeps(n, Register(id));
  }

  lemma RepeatOrigin(h0: seq<WatchEvent>, c0: nat, pend: seq<WatchEvent>, m: Node, id: nat, w: Watcher, out: Outcome)
    returns (e: WatchEvent)
    requires Since(h0, c0, pend, m, id) && Answering(m, id, w, out) && Repeating(w, out)
    ensures w.from <= |h0| && Betrays(h0, c0, pend, m.limit, w, out.es)
    ensures e in pend && Matches(w.filter, e) && e.revision <= w.from
  {
    e :| e in out.es && e.revision <= w.from;
    AnswerOK(m, id, w, out);
    assert At(m, id);
  }

  /** The history and the indices seen at registration carry over to any later state. */
  lemma SinceRegistration(n: Node, id: nat, more: seq<Step>, m: Node)
    requires NodeInv(n) && Enabled(n, Register(id)) && n.watchers[id].from > 0
    requires Leads(Next(n, Register(id)), more, m)
    ensures Since(n.stream, n.store.compactRev, Unsent(n), m, id)
  {
    JustRegistered(n, id);
    SinceRun(n.stream, n.store.compactRev, Unsent(n), Next(n, Register(id)), more, id);
  }

  lemma {:induction false} SameRequest(n: Node, steps: seq<Step>, m: Node, id: nat)
    requires Leads(n, steps, m) && At(n, id) && At(m, id) && id < n.nextId
    ensures m.watchers[id].filter == n.watchers[id].filter && m.watchers[id].from == n.watchers[id].from
    ensures m.limit == n.limit
  {
    if steps == [] {
    } else {
      var pre, st := steps[..|steps| - 1], steps[|steps| - 1];
      var u := Exec(n, pre);
      RunGrows(n, pre);
      StillThere(u, st, id);
      SameRequest(n, pre, u, id);
      OneRequest(u, st, id);
      StepGrows(u, st);
    }
  }

  /** Whatever a registration can still repeat was exposed when it happened, and is
      returned together with all matching events of the pending command. */
  lemma RepeatsExposed(n: Node, id: nat, more: seq<Step>, m: Node, w: Watcher, out: Outcome)
    requires Answering(m, id, w, out) && Repeating(w, out)
    requires NodeInv(n) && Enabled(n, Register(id)) && n.watchers[id].from > 0
    requires Leads(Next(n, Register(id)), more, m)
    ensures Exposed(n, id)
    ensures Delivered(Unsent(n), n.watchers[id].filter, out.es) && w.from == n.watchers[id].from
  {
    Registered(n, id);
    SinceRegistration(n, id, more, m);
    var e := RepeatOrigin(n.stream, n.store.compactRev, Unsent(n), m, id, w, out);
    SameRequest(Next(n, Register(id)), more, m, id);
  }

  lemma Registered(n: Node, id: nat)
    requires HubOK(n) && Enabled(n, Register(id))
    ensures At(n, id) && id < n.nextId
  {
    assert At(n, id);
  }

  lemma RepeatsOnlyExposed(n: Node, id: nat, more: seq<Step>, m: Node)
    requires NodeInv(n) && Enabled(n, Register(id)) && n.watchers[id].from > 0
    requires Leads(Next(n, Register(id)), more, m) && Repeats(m, id)
    ensures Exposed(n, id)
  {
    RepeatsExposed(n, id, more, m, m.watchers[id], m.watchers[id].pc.out);
  }

  /** Exactly when "no repetition" fails: some continuation of a registration
      answers with an event at or below `from` if and only if the registration is
      exposed. */
  lemma RepetitionExactly(limit: nat, steps: seq<Step>, n: Node, id: nat)
    requires Reached(limit, steps, n) && Enabled(n, Register(id)) && n.watchers[id].from > 0
    ensures (exists more, m :: Leads(Next(n, Register(id)), more, m) && Repeats(m, id)) <==> Exposed(n, id)
  {
    ReachableInv(limit, steps, n);
    if Exposed(n, id) {
      var more, m := ExposedRepeats(n, id);
    }
    if more, m :| Leads(Next(n, Register(id)), more, m) && Repeats(m, id) {
      RepeatsOnlyExposed(n, id, more, m);
    }
  }

  lemma BelowRepeats(n: Node, id: nat, w: Watcher, out: Outcome)
    requires NodeInv(n) && Answering(n, id, w, out) && forall e :: e in out.es ==> e.revision < w.from
    ensures Repeating(w, out)
  {
    AnswerOK(n, id, w, out);
    assert out.es[0] in out.es;
  }

  /** The event at `from` is part of a pending command that has an event at or below it. */
  lemma FromPending(h: seq<WatchEvent>, pend: seq<WatchEvent>, from: nat, e: WatchEvent)
    requires Numbered(h, 0) && 0 < from <= |h| && |pend| <= |h| && pend == h[|h| - |pend|..]
    requires e in pend && e.revision <= from
    ensures h[from - 1] in pend
  {
    var i :| 0 <= i < |pend| && pend[i] == e;
    assert pend[from - 1 - (|h| - |pend|)] == h[from - 1];
  }

  lemma LaterInv(n: Node, id: nat, more: seq<Step>, m: Node)
    requires NodeInv(n) && Enabled(n, Register(id)) && Leads(Next(n, Register(id)), more, m)
    ensures NodeInv(m)
  {
    StepKeeps(n, Register(id));
    RunKeepsInv(Next(n, Register(id)), more);
  }

  lemma BelowRepeating(n: Node, id: nat, more: seq<Step>, m: Node, w: Watcher, out: Outcome)
    requires Answering(m, id, w, out) && forall e :: e in out.es ==> e.revision < w.from
    requires NodeInv(n) && Enabled(n, Register(id)) && Leads(Next(n, Register(id)), more, m)
    ensures Repeating(w, out)
  {
    LaterInv(n, id, more, m);
    BelowRepeats(m, id, w, out);
  }

  lemma BelowUnmatched(n: Node, id: nat, more: seq<Step>, m: Node, w: Watcher, out: Outcome)
    requires Answering(m, id, w, out) && Repeating(w, out) && forall e :: e in out.es ==> e.revision < w.from
    requires NodeInv(n) && Enabled(n, Register(id)) && n.watchers[id].from > 0
    requires Leads(Next(n, Register(id)), more, m)
    ensures Exposed(n, id) && !Matches(n.watchers[id].filter, n.stream[n.watchers[id].from - 1])
  {
    RepeatsExposed(n, id, more, m, w, out);
    FromDelivered(n, id, out.es);
  }

  lemma FromDelivered(n: Node, id: nat, es: seq<WatchEvent>)
    requires NodeInv(n) && At(n, id) && n.watchers[id].from > 0 && Exposed(n, id)
    requires Delivered(Unsent(n), n.watchers[id].filter, es)
    requires forall e :: e in es ==> e.revision < n.watchers[id].from
    ensures !Matches(n.watchers[id].filter, n.stream[n.watchers[id].from - 1])
  {
    NodeFacts(n);
    var w := n.watchers[id];
    var e :| e in Unsent(n) && Matches(w.filter, e) && e.revision <= w.from;
    FromPending(n.stream, Unsent(n), w.from, e);
  }

  lemma BelowOnlyExposed(n: Node, id: nat, more: seq<Step>, m: Node, w: Watcher, out: Outcome)
    requires Answering(m, id, w, out) && forall e :: e in out.es ==> e.revision < w.from
    requires NodeInv(n) && Enabled(n, Register(id)) && n.watchers[id].from > 0
    requires Leads(Next(n, Register(id)), more, m)
    ensures Exposed(n, id) && !Matches(n.watchers[id].filter, n.stream[n.watchers[id].from - 1])
  {
    BelowRepeating(n, id, more, m, w, out);
    BelowUnmatched(n, id, more, m, w, out);
  }

  lemma BelowAnyExposed(n: Node, id: nat, more: seq<Step>, m: Node)
    requires NodeInv(n) && Enabled(n, Register(id)) && n.watchers[id].from > 0
    requires Leads(Next(n, Register(id)), more, m) && AnswersBelow(m, id)
    ensures Exposed(n, id) && !Matches(n.watchers[id].filter, n.stream[n.watchers[id].from - 1])
  {
    BelowOnlyExposed(n, id, more, m, m.watchers[id], m.watchers[id].pc.out);
  }

  /** Exactly when the anchor can be sent back by events: some continuation of a
      registration answers with events all below `from` if and only if the
      registration is exposed and the event at revision `from` does not match. */
  lemma AnchorFallsExactly(limit: nat, steps: seq<Step>, n: Node, id: nat)
    requires Reached(limit, steps, n) && Enabled(n, Register(id)) && n.watchers[id].from > 0
    ensures (exists more, m :: Leads(Next(n, Register(id)), more, m) && AnswersBelow(m, id)) <==>
            Exposed(n, id) && !Matches(n.watchers[id].filter, n.stream[n.watchers[id].from - 1])
  {
    ReachableInv(limit, steps, n);
    if Exposed(n, id) && !Matches(n.watchers[id].filter, n.stream[n.watchers[id].from - 1]) {
      var more, m := ExposedFallsBack(n, id);
    }
    if more, m :| Leads(Next(n, Register(id)), more, m) && AnswersBelow(m, id) {
      BelowAnyExposed(n, id, more, m);
    }
  }
}
