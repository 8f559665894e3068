/** The command interpreter and the replicated state machine's apply loop
    (src/store/store_ops.cpp, src/raft/state_machine.cpp). */
module StateMachineModel {
  import opened Records
  import opened Mvcc
  import opened History
  import opened StoreKey
  import opened StoreModel
  import opened Hub

  /** How many revisions a command can take. */
  function Size(cmd: RaftCmd): nat { if cmd.BatchPut? then |cmd.puts| else 1 }

  /** Rollback targets are int64. */
  predicate InRange(cmd: RaftCmd) { cmd.Rollback? ==> cmd.target < TWO_63 }

  function Single(rev: int, out: Option<KV>): ApplyResult {
    if rev < 0 || out.None? then Failure(INTERNAL)
    else ApplyResult(OK, out, [], [MakeEvent(out.value)])
  }

  /** ApplyCmdToStore interprets a command exactly as the abstract store does. */
  method ApplyCmdToStore(store: Store, cmd: RaftCmd, writeOk: bool) returns (res: ApplyResult)
    requires store.Valid() && store.abs.revision + Size(cmd) < TWO_63 && InRange(cmd)
    modifies store
    ensures store.Valid()
    ensures (store.abs, res) == Apply(old(store.abs), cmd, writeOk)
  {
    match cmd {
      case Put(key, value) =>
        var rev, kv := store.Put(key, value, writeOk);
        res := Single(rev, kv);
      case Delete(key) =>
        var rev, kv := store.Delete(key, writeOk);
        res := Single(rev, kv);
      case Publish(key, value) =>
        var rev, kv := store.Publish(key, value, writeOk);
        res := Single(rev, kv);
      case Rollback(key, target) =>
        var rev, kv, ok := store.Rollback(key, target, writeOk);
        res := if !ok then Failure(VERSION_NOT_FOUND) else Single(rev, kv);
      case Cas(key, expected, value) =>
        var rev, kv, code := store.CompareAndSwap(key, expected, value, writeOk);
        res := if rev < 0 && code == CAS_FAILED then Failure(CAS_FAILED) else Single(rev, kv);
      case BatchPut(puts) =>
        var rev, kvs := store.BatchPut(puts, writeOk);
        res := if rev < 0 then Failure(INTERNAL) else ApplyResult(OK, None, kvs, EventsOf(kvs));
      case Unknown =>
        res := Failure(INTERNAL);
    }
    SingleEvent(res);
  }

  lemma SingleEvent(res: ApplyResult)
    ensures forall kv :: EventsOf([kv]) == [MakeEvent(kv)]
  {
    forall kv ensures EventsOf([kv]) == [MakeEvent(kv)] {
      assert EventsOf([kv])[0] == MakeEvent(kv);
    }
  }

  // ------------------------------------------------------- the apply loop

  /** A log entry as it reaches on_apply: undecodable data is skipped. */
  datatype LogEntry = LogEntry(cmd: Option<RaftCmd>, writeOk: bool)

  function Outcome(s: State, e: LogEntry): (State, Option<ApplyResult>) {
    if e.cmd.None? then (s, None)
    else var (t, res) := Apply(s, e.cmd.value, e.writeOk); (t, Some(res))
  }

  function EventsFrom(r: Option<ApplyResult>): seq<WatchEvent> {
    if r.Some? then r.value.events else []
  }

  function StateAfter(s: State, es: seq<LogEntry>): State {
    if es == [] then s else Outcome(StateAfter(s, es[..|es| - 1]), es[|es| - 1]).0
  }

  function ResultsOf(s: State, es: seq<LogEntry>): seq<Option<ApplyResult>> {
    if es == [] then []
    else ResultsOf(s, es[..|es| - 1]) + [Outcome(StateAfter(s, es[..|es| - 1]), es[|es| - 1]).1]
  }

  /** A waiter's buffer after the broadcasts of all entries, in log order. */
  function BufferAfter(b: Buffer, filter: string, limit: nat, s: State, es: seq<LogEntry>): Buffer {
    if es == [] then b
    else
      var pre, last := es[..|es| - 1], es[|es| - 1];
      PushAll(BufferAfter(b, filter, limit, s, pre), filter, EventsFrom(Outcome(StateAfter(s, pre), last).1), limit)
  }

  function TotalSize(es: seq<LogEntry>): nat {
    if es == [] then 0
    else TotalSize(es[..|es| - 1]) + if es[|es| - 1].cmd.Some? then Size(es[|es| - 1].cmd.value) else 0
  }

  lemma {:induction false} PrefixSize(es: seq<LogEntry>, i: nat)
    requires i <= |es|
    ensures TotalSize(es[..i]) <= TotalSize(es)
  {
    if i == |es| {
      assert es[..i] == es;
    } else {
      assert es[..|es| - 1][..i] == es[..i];
      PrefixSize(es[..|es| - 1], i);
    }
  }

  lemma RevisionStep(s: State, cmd: RaftCmd, writeOk: bool)
    requires Inv(s)
    ensures Apply(s, cmd, writeOk).0.revision <= s.revision + Size(cmd)
  {
    ApplyGrows(s, cmd, writeOk);
  }

  // --------------------------------------------- what the loop computes

  /** The commands of a batch that can change the store: decodable, write not failed. */
  function Effective(es: seq<LogEntry>): seq<RaftCmd> {
    if es == [] then []
    else
      var e := es[|es| - 1];
      Effective(es[..|es| - 1]) + if e.cmd.Some? && e.writeOk then [e.cmd.value] else []
  }

  /** All events a list of results announces, in order. */
  function Announced(rs: seq<Option<ApplyResult>>): seq<WatchEvent> {
    if rs == [] then [] else Announced(rs[..|rs| - 1]) + EventsFrom(rs[|rs| - 1])
  }

  lemma FailedWrite(s: State, cmd: RaftCmd)
    ensures Apply(s, cmd, false).0 == s && Apply(s, cmd, false).1.events == []
  {
    if Decide(s, cmd).Accept? && Decide(s, cmd).recs == [] {
      assert WriteAll(s, []) == s;
    }
  }

  lemma OneEntry(s: State, cmds: seq<RaftCmd>, e: LogEntry)
    ensures var c := if e.cmd.Some? && e.writeOk then [e.cmd.value] else [];
            var (t, r) := Outcome(Final(s, cmds), e);
            t == Final(s, cmds + c) && Events(s, cmds) + EventsFrom(r) == Events(s, cmds + c)
  {
    if e.cmd.Some? && e.writeOk {
      assert (cmds + [e.cmd.value])[..|cmds|] == cmds;
    } else {
      assert cmds + [] == cmds;
      if e.cmd.Some? { FailedWrite(Final(s, cmds), e.cmd.value); }
    }
  }

  /** After a batch of log entries the store is the serial run of its effective
      commands, and the broadcast events are that run's, in log order. */
  lemma {:induction false} BatchIsSerialRun(s: State, es: seq<LogEntry>)
    ensures StateAfter(s, es) == Final(s, Effective(es))
    ensures Announced(ResultsOf(s, es)) == Events(s, Effective(es))
  {
    if es == [] {
    } else {
      var pre, e := es[..|es| - 1], es[|es| - 1];
      BatchIsSerialRun(s, pre);
      OneEntry(s, Effective(pre), e);
      assert ResultsOf(s, es)[..|ResultsOf(s, es)| - 1] == ResultsOf(s, pre);
    }
  }

  /** Each decodable entry gets the result of its command on the store the effective
      commands before it leave; an undecodable one gets none. */
  lemma {:induction false} EachOwnResult(s: State, es: seq<LogEntry>, i: nat)
    requires i < |es|
    ensures |ResultsOf(s, es)| == |es|
    ensures ResultsOf(s, es)[i] ==
            if es[i].cmd.None? then None
            else Some(Apply(Final(s, Effective(es[..i])), es[i].cmd.value, es[i].writeOk).1)
  {
    var pre := es[..|es| - 1];
    ResultsLength(s, pre);
    if i == |pre| {
      BatchIsSerialRun(s, pre);
    } else {
      EachOwnResult(s, pre, i);
      assert pre[..i] == es[..i];
    }
  }

  lemma {:induction false} ResultsLength(s: State, es: seq<LogEntry>)
    ensures |ResultsOf(s, es)| == |es|
  {
    if es == [] {
    } else {
      ResultsLength(s, es[..|es| - 1]);
    }
  }

  /** Decodable, and the write succeeded. */
  predicate Clean(es: seq<LogEntry>) {
    forall i :: 0 <= i < |es| ==> es[i].cmd.Some? && es[i].writeOk
  }

  lemma {:induction false} CleanEffective(es: seq<LogEntry>)
    requires Clean(es)
    ensures |Effective(es)| == |es|
    ensures forall i :: 0 <= i < |es| ==> Effective(es)[i] == es[i].cmd.value
  {
    if es == [] {
    } else {
      CleanEffective(es[..|es| - 1]);
    }
  }

  lemma {:induction false} ResultAt(s: State, cmds: seq<RaftCmd>, i: nat)
    requires i < |cmds|
    ensures |Results(s, cmds)| == |cmds| && Results(s, cmds)[i] == Result(Final(s, cmds[..i]), cmds[i])
  {
    var pre := cmds[..|cmds| - 1];
    if pre == [] {
      assert Results(s, pre) == [];
    } else if i == |pre| {
      ResultAt(s, pre, 0);
    } else {
      ResultAt(s, pre, i);
      assert pre[..i] == cmds[..i];
    }
  }

  /** For decodable entries with successful writes the results are those of the commands. */
  lemma CleanResults(s: State, es: seq<LogEntry>, i: nat)
    requires Clean(es) && i < |es|
    ensures |ResultsOf(s, es)| == |Results(s, Effective(es))| == |es|
    ensures ResultsOf(s, es)[i] == Some(Results(s, Effective(es))[i])
  {
    EachOwnResult(s, es, i);
    CleanEffective(es);
    CleanEffective(es[..i]);
    assert Effective(es[..i]) == Effective(es)[..i];
    ResultAt(s, Effective(es), i);
  }

  /** A waiter's buffer after a batch takes all announced events in log order. */
  lemma {:induction false} BufferAfterBatch(b: Buffer, filter: string, limit: nat, s: State, es: seq<LogEntry>)
    requires |b.events| <= limit
    ensures Takes(b, BufferAfter(b, filter, limit, s, es), filter, limit, Announced(ResultsOf(s, es)))
  {
    if es == [] {
      assert b.events + [] == b.events;
    } else {
      var pre, e := es[..|es| - 1], es[|es| - 1];
      BufferAfterBatch(b, filter, limit, s, pre);
      var r := Outcome(StateAfter(s, pre), e).1;
      assert ResultsOf(s, es)[..|ResultsOf(s, es)| - 1] == ResultsOf(s, pre);
      TakesMore(b, BufferAfter(b, filter, limit, s, pre), filter, limit, Announced(ResultsOf(s, pre)), EventsFrom(r));
    }
  }

  class StateMachine {
    const store: Store
    const hub: WatchHub

    constructor (store: Store, hub: WatchHub)
      ensures this.store == store && this.hub == hub
    {
      this.store, this.hub := store, hub;
    }

    /** on_apply: entries go to the store one by one, and each one's events to every
        registered waiter before the next entry is touched. */
    method OnApply(es: seq<LogEntry>) returns (results: seq<Option<ApplyResult>>)
      requires store.Valid() && store.abs.revision + TotalSize(es) < TWO_63 && Distinct(hub.waiters)
      requires forall i :: 0 <= i < |es| && es[i].cmd.Some? ==> InRange(es[i].cmd.value)
      modifies store, hub.waiters
      ensures store.Valid() && store.abs == StateAfter(old(store.abs), es)
      ensures results == ResultsOf(old(store.abs), es)
      ensures hub.waiters == old(hub.waiters)
      ensures forall w :: w in hub.waiters ==>
                w.State() == BufferAfter(old(w.State()), w.keyFilter, hub.maxEvents, old(store.abs), es)
    {
      results := [];
      var i := 0;
      while i < |es|
        invariant 0 <= i <= |es| && store.Valid()
        invariant hub.waiters == old(hub.waiters)
        invariant store.abs == StateAfter(old(store.abs), es[..i])
        invariant store.abs.revision <= old(store.abs.revision) + TotalSize(es[..i])
        invariant results == ResultsOf(old(store.abs), es[..i])
        invariant forall w :: w in hub.waiters ==>
          w.State() == BufferAfter(old(w.State()), w.keyFilter, hub.maxEvents, old(store.abs), es[..i])
      {
        assert es[..i + 1][..i] == es[..i];
        PrefixSize(es, i + 1);
        var r := ApplyEntry(es[i]);
        results := results + [r];
        i := i + 1;
      }
      assert es[..i] == es;
    }

    /** One turn of the loop. */
    method ApplyEntry(e: LogEntry) returns (r: Option<ApplyResult>)
      requires store.Valid() && Distinct(hub.waiters)
      requires e.cmd.Some? ==> store.abs.revision + Size(e.cmd.value) < TWO_63 && InRange(e.cmd.value)
      modifies store, hub.waiters
      ensures store.Valid() && hub.waiters == old(hub.waiters)
      ensures (store.abs, r) == Outcome(old(store.abs), e)
      ensures e.cmd.Some? ==> store.abs.revision <= old(store.abs.revision) + Size(e.cmd.value)
      ensures forall w :: w in hub.waiters ==>
                w.State() == PushAll(old(w.State()), w.keyFilter, EventsFrom(r), hub.maxEvents)
    {
      if e.cmd.None? {
        return None;
      }
      RevisionStep(store.abs, e.cmd.value, e.writeOk);
      var res := ApplyCmdToStore(store, e.cmd.value, e.writeOk);
      if res.events != [] {
        hub.Broadcast(res.events);
      }
      return Some(res);
    }
  }
}
