/** What replicas of one log agree on although each compacts by itself and may
    install a peer's snapshot (src/store/store.cpp, src/raft/state_machine.cpp). */
module Replication {
  import opened Records
  import opened Mvcc
  import opened History

  // --------------------------------------------------- the reference run

  /** The uncompacted run of a log, and the events it announces. */
  function Run(log: seq<RaftCmd>): State { Final(EMPTY, log) }
  function Stream(log: seq<RaftCmd>): seq<WatchEvent> { Events(EMPTY, log) }

  lemma {:induction false} RunFacts(log: seq<RaftCmd>)
    ensures Inv(Run(log)) && Run(log).compactRev == 0 && Recorded(Stream(log), Run(log))
  {
    if log == [] {
    } else {
      var pre, c := log[..|log| - 1], log[|log| - 1];
      RunFacts(pre);
      ApplyKeepsInv(Run(pre), c, true);
      ApplyGrows(Run(pre), c, true);
      RecordedStep(Stream(pre), Run(pre), c, true);
    }
  }

  lemma RunSnoc(log: seq<RaftCmd>, c: RaftCmd)
    ensures Run(log + [c]) == After(Run(log), c)
    ensures Stream(log + [c]) == Stream(log) + Result(Run(log), c).events
  {
    assert (log + [c])[..|log + [c]| - 1] == log;
  }

  /** The reference run of a longer log extends that of a shorter one. */
  lemma {:induction false} RunPrefix(short: seq<RaftCmd>, long: seq<RaftCmd>)
    requires short <= long
    ensures Stream(short) <= Stream(long)
    ensures Run(short).revision <= Run(long).revision
    ensures forall p :: p in Run(short).cfg ==> p in Run(long).cfg && Run(long).cfg[p] == Run(short).cfg[p]
  {
    if |short| == |long| {
      assert short == long;
    } else {
      var pre, c := long[..|long| - 1], long[|long| - 1];
      assert long == pre + [c];
      RunPrefix(short, pre);
      RunFacts(pre);
      RunSnoc(pre, c);
      ApplyGrows(Run(pre), c, true);
      ApplyKeys(Run(pre), c, true);
    }
  }

  // ------------------------------------------------------------ agreement

  /** A replica state against the uncompacted run of the same commands: same main
      index and revision, part of the history and of the version index, nothing
      missing above compactRev, every current record still in history. */
  ghost predicate Tracks(s: State, ref: State) {
    && s.main == ref.main && s.revision == ref.revision && s.compactRev <= s.revision
    && (forall p :: p in s.cfg ==> p in ref.cfg && s.cfg[p] == ref.cfg[p])
    && (forall r :: r in s.hist ==> r in ref.hist && s.hist[r] == ref.hist[r])
    && Complete(s.hist, s.compactRev, s.revision)
    && (forall k :: k in s.main ==> s.main[k].revision in s.hist)
  }

  lemma TracksInv(s: State, ref: State)
    requires Tracks(s, ref) && Inv(ref)
    ensures Inv(s)
  {
    forall k | k in s.main ensures MainOK(s, k) { assert MainOK(ref, k); }
    forall r | r in s.hist ensures HistOK(s, r) { assert HistOK(ref, r); }
    forall p | p in s.cfg ensures CfgOK(s, p) { assert CfgOK(ref, p); }
  }

  /** A replica's store and the events of its log belong together. */
  lemma TracksRecorded(s: State, log: seq<RaftCmd>)
    requires Tracks(s, Run(log))
    ensures Inv(s) && Recorded(Stream(log), s)
  {
    RunFacts(log);
    TracksInv(s, Run(log));
  }

  /** The version a rollback reads has not been compacted away locally. */
  predicate Retained(s: State, ref: State, cmd: RaftCmd) {
    cmd.Rollback? && cmd.target > 0 && (cmd.key, cmd.target) in ref.cfg ==> (cmd.key, cmd.target) in s.cfg
  }

  lemma {:induction false} WriteAllSameMain(s: State, t: State, recs: seq<KV>)
    requires s.main == t.main && s.revision == t.revision
    ensures WriteAll(s, recs).main == WriteAll(t, recs).main
    ensures WriteAll(s, recs).revision == WriteAll(t, recs).revision
  {
    if recs == [] {
    } else {
      WriteAllSameMain(s, t, recs[..|recs| - 1]);
    }
  }

  lemma {:induction false} WriteAllTracks(s: State, ref: State, recs: seq<KV>)
    requires Tracks(s, ref) && Chain(ref, recs)
    ensures Tracks(WriteAll(s, recs), WriteAll(ref, recs))
    ensures WriteAll(s, recs).cfg == s.cfg && WriteAll(ref, recs).cfg == ref.cfg
  {
    if recs == [] {
    } else {
      ChainPrefix(ref, recs);
      WriteAllTracks(s, ref, recs[..|recs| - 1]);
      WriteAllCounters(ref, recs[..|recs| - 1]);
    }
  }

  /** One command on a replica against the reference: they agree in result,
      events and state exactly when a rollback still finds its version; otherwise
      the replica refuses what the reference performs. */
  lemma ApplyAgrees(s: State, ref: State, cmd: RaftCmd)
    requires Tracks(s, ref) && Inv(ref)
    ensures Retained(s, ref, cmd) <==> Result(s, cmd) == Result(ref, cmd)
    ensures Retained(s, ref, cmd) <==> Tracks(After(s, cmd), After(ref, cmd))
    ensures !Retained(s, ref, cmd) ==>
              Result(s, cmd) == Failure(VERSION_NOT_FOUND) && Result(ref, cmd).code == OK &&
              After(s, cmd) == s && After(ref, cmd).revision == ref.revision + 1
  {
    if Retained(s, ref, cmd) {
      RetainedAgrees(s, ref, cmd);
    } else {
      CompactedDiverges(s, ref, cmd);
    }
  }

  lemma RetainedAgrees(s: State, ref: State, cmd: RaftCmd)
    requires Tracks(s, ref) && Retained(s, ref, cmd)
    ensures Result(s, cmd) == Result(ref, cmd) && Tracks(After(s, cmd), After(ref, cmd))
  {
    SameDecision(s, ref, cmd);
    var d := Decide(ref, cmd);
    if d.Accept? {
      DecideChain(ref, cmd);
      WriteAllTracks(s, ref, d.recs);
    }
  }

  lemma CompactedDiverges(s: State, ref: State, cmd: RaftCmd)
    requires Tracks(s, ref) && Inv(ref) && !Retained(s, ref, cmd)
    ensures Result(s, cmd) == Failure(VERSION_NOT_FOUND) && Result(ref, cmd).code == OK
    ensures After(s, cmd) == s && After(ref, cmd).revision == ref.revision + 1
  {
    assert CfgOK(ref, (cmd.key, cmd.target));
    DecideChain(ref, cmd);
    WriteAllCounters(ref, Decide(ref, cmd).recs);
  }

  lemma SameDecision(s: State, ref: State, cmd: RaftCmd)
    requires Tracks(s, ref) && Retained(s, ref, cmd)
    ensures Decide(s, cmd) == Decide(ref, cmd)
  {
    if cmd.BatchPut? {
      assert BatchRecords(s, cmd.puts) == BatchRecords(ref, cmd.puts);
    }
  }

  lemma CompactComplete(s: State, victims: map<nat, KV>)
    requires s.compactRev <= s.revision && Complete(s.hist, s.compactRev, s.revision)
    requires forall r :: r in victims ==> r <= s.revision
    ensures var t := Compact(s, victims); t.compactRev <= t.revision && Complete(t.hist, t.compactRev, t.revision)
  {
    if victims != map[] {
      assert IsMax(MaxOf(victims.Keys), victims.Keys);
    }
  }

  /** Local compaction keeps agreement. */
  lemma CompactTracks(s: State, ref: State, victims: map<nat, KV>)
    requires Tracks(s, ref) && Inv(ref) && Superseded(s, victims)
    ensures Tracks(Compact(s, victims), ref)
  {
    forall k | k in s.main ensures s.main[k].revision !in victims {
      CurrentSurvives(s, ref, victims, k);
    }
    CompactComplete(s, victims);
  }

  lemma CurrentSurvives(s: State, ref: State, victims: map<nat, KV>, k: string)
    requires Tracks(s, ref) && Inv(ref) && Superseded(s, victims) && k in s.main
    ensures s.main[k].revision !in victims
  {
    assert MainOK(ref, k);
  }

  // ------------------------------------------------------------- snapshots

  lemma {:induction false} MainOfFacts(kvs: seq<KV>, k: string)
    ensures k in MainOf(kvs) ==> MainOf(kvs)[k] in kvs && MainOf(kvs)[k].key == k
    ensures (exists kv :: kv in kvs && kv.key == k) ==> k in MainOf(kvs)
  {
    if kvs == [] {
    } else {
      MainOfFacts(kvs[..|kvs| - 1], k);
      assert kvs == kvs[..|kvs| - 1] + [kvs[|kvs| - 1]];
    }
  }

  lemma {:induction false} HistOfFacts(kvs: seq<KV>, r: nat)
    ensures r in HistOf(kvs) ==> HistOf(kvs)[r] in kvs && HistOf(kvs)[r].revision == r
    ensures (exists kv :: kv in kvs && kv.revision == r) ==> r in HistOf(kvs)
  {
    if kvs == [] {
    } else {
      HistOfFacts(kvs[..|kvs| - 1], r);
      assert kvs == kvs[..|kvs| - 1] + [kvs[|kvs| - 1]];
    }
  }

  lemma {:induction false} CfgOfFacts(kvs: seq<KV>, p: (string, nat))
    ensures p in CfgOf(kvs) ==> CfgOf(kvs)[p] in kvs && (CfgOf(kvs)[p].key, CfgOf(kvs)[p].version) == p
    ensures (exists kv :: kv in kvs && (kv.key, kv.version) == p) ==> p in CfgOf(kvs)
  {
    if kvs == [] {
    } else {
      CfgOfFacts(kvs[..|kvs| - 1], p);
      assert kvs == kvs[..|kvs| - 1] + [kvs[|kvs| - 1]];
    }
  }

  /** Export then load restores the main index, the version index and the
      revision, whatever the store held before; of the history only the current
      records remain, and compactRev covers what was dropped. */
  lemma LoadExported(data: SnapshotData, s: State)
    requires Inv(s) && Exports(data, s)
    ensures var t := Load(data);
            && t.main == s.main && t.cfg == s.cfg && t.revision == t.compactRev == s.revision
            && (forall r :: r in t.hist ==> r in s.hist && t.hist[r] == s.hist[r])
            && (forall r :: r in t.hist <==> r in s.hist && s.main[s.hist[r].key] == s.hist[r])
  {
    LoadedMain(data, s);
    LoadedConfig(data, s);
    forall r: nat ensures r in Load(data).hist <==> r in s.hist && s.main[s.hist[r].key] == s.hist[r]
                  ensures r in Load(data).hist ==> Load(data).hist[r] == s.hist[r]
    {
      assert r in s.hist ==> HistOK(s, r);
      LoadedRecord(data, s, r);
    }
  }

  /** Where "from >= compact_rev if and only if nothing is missing" fails: a loaded
      export of any store with something above its own compactRev still has the
      record at the new compactRev, so a resume from the revision before is refused
      although nothing of (from, current] is missing. */
  lemma LoadedTestErrs(data: SnapshotData, s: State, filter: string, max: int)
    requires Inv(s) && Exports(data, s) && s.compactRev < s.revision && max > 0
    ensures var t := Load(data);
            var from := t.compactRev - 1;
            && t.compactRev in t.hist && from >= 0 && Complete(t.hist, from, t.revision)
            && Replay(t.hist, t.compactRev, from, t.revision, filter, max) == (COMPACTED, [])
  {
    LoadExported(data, s);
    assert HistOK(s, s.revision) && MainOK(s, s.hist[s.revision].key);
  }

  lemma LoadedMain(data: SnapshotData, s: State)
    requires Inv(s) && Exports(data, s)
    ensures MainOf(data.kvs) == s.main
  {
    forall k ensures k in MainOf(data.kvs) <==> k in s.main
             ensures k in s.main ==> MainOf(data.kvs)[k] == s.main[k]
    {
      MainOfFacts(data.kvs, k);
      if k in s.main {
        assert MainOK(s, k);
        assert s.main[k] in data.kvs;
      }
    }
  }

  lemma LoadedConfig(data: SnapshotData, s: State)
    requires Inv(s) && Exports(data, s)
    ensures CfgOf(data.cfgKvs) == s.cfg
  {
    forall p ensures p in CfgOf(data.cfgKvs) <==> p in s.cfg
             ensures p in s.cfg ==> CfgOf(data.cfgKvs)[p] == s.cfg[p]
    {
      CfgOfFacts(data.cfgKvs, p);
      if p in s.cfg {
        assert CfgOK(s, p);
        assert s.cfg[p] in data.cfgKvs;
      }
    }
  }

  lemma LoadedRecord(data: SnapshotData, s: State, r: nat)
    requires Inv(s) && Exports(data, s)
    ensures r in HistOf(data.kvs) ==> r in s.hist && HistOf(data.kvs)[r] == s.hist[r]
    ensures r in s.hist ==> HistOK(s, r) && (s.main[s.hist[r].key] == s.hist[r] <==> r in HistOf(data.kvs))
  {
    HistOfFacts(data.kvs, r);
    if r in HistOf(data.kvs) {
      assert MainOK(s, HistOf(data.kvs)[r].key);
    }
    if r in s.hist {
      assert HistOK(s, r);
      if s.main[s.hist[r].key] == s.hist[r] {
        assert s.hist[r] in data.kvs;
      }
    }
  }

  lemma LoadTracks(data: SnapshotData, s: State, ref: State)
    requires Tracks(s, ref) && Inv(ref) && Exports(data, s)
    ensures Tracks(Load(data), ref)
  {
    TracksInv(s, ref);
    LoadExported(data, s);
    forall k | k in s.main ensures s.main[k].revision in Load(data).hist {
      assert MainOK(s, k);
    }
  }

  lemma {:induction false} SuffixAgrees(s: State, t: State, cmds: seq<RaftCmd>)
    requires s.main == t.main && s.cfg == t.cfg && s.revision == t.revision
    ensures var a, b := Final(s, cmds), Final(t, cmds);
            a.main == b.main && a.cfg == b.cfg && a.revision == b.revision
    ensures Results(s, cmds) == Results(t, cmds) && Events(s, cmds) == Events(t, cmds)
  {
    if cmds == [] {
    } else {
      var pre, c := cmds[..|cmds| - 1], cmds[|cmds| - 1];
      SuffixAgrees(s, t, pre);
      SameLiveStep(Final(s, pre), Final(t, pre), c);
    }
  }

  lemma SameLiveStep(s: State, t: State, c: RaftCmd)
    requires s.main == t.main && s.cfg == t.cfg && s.revision == t.revision
    ensures var a, b := After(s, c), After(t, c);
            a.main == b.main && a.cfg == b.cfg && a.revision == b.revision
    ensures Result(s, c) == Result(t, c)
  {
    if c.BatchPut? {
      assert BatchRecords(s, c.puts) == BatchRecords(t, c.puts);
    }
    assert Decide(s, c) == Decide(t, c);
    if Decide(s, c).Accept? {
      DecideChain(s, c);
      DecideChain(t, c);
      WriteAllSameMain(s, t, Decide(s, c).recs);
      WriteAllCounters(s, Decide(s, c).recs);
      WriteAllCounters(t, Decide(s, c).recs);
    }
  }

  lemma {:induction false} FinalSplit(s: State, a: seq<RaftCmd>, b: seq<RaftCmd>)
    ensures Final(s, a + b) == Final(Final(s, a), b)
  {
    if b == [] {
      assert a + b == a;
    } else {
      assert (a + b)[..|a + b| - 1] == a + b[..|b| - 1];
      FinalSplit(s, a, b[..|b| - 1]);
    }
  }

  lemma EventsSnoc(s: State, cmds: seq<RaftCmd>, c: RaftCmd)
    ensures Events(s, cmds + [c]) == Events(s, cmds) + Result(Final(s, cmds), c).events
    ensures Results(s, cmds + [c]) == Results(s, cmds) + [Result(Final(s, cmds), c)]
  {
    assert (cmds + [c])[..|cmds|] == cmds;
  }

  lemma {:induction false} EventsSplit(s: State, a: seq<RaftCmd>, b: seq<RaftCmd>)
    ensures Events(s, a + b) == Events(s, a) + Events(Final(s, a), b)
  {
    if b == [] {
      assert a + b == a;
    } else {
      var pre, c := b[..|b| - 1], b[|b| - 1];
      assert a + b == (a + pre) + [c] && b == pre + [c];
      EventsSplit(s, a, pre);
      FinalSplit(s, a, pre);
      EventsSnoc(s, a + pre, c);
      EventsSnoc(Final(s, a), pre, c);
      Assoc(Events(s, a), Events(Final(s, a), pre), Result(Final(s, a + pre), c).events);
    }
  }

  lemma {:induction false} ResultsSplit(s: State, a: seq<RaftCmd>, b: seq<RaftCmd>)
    ensures Results(s, a + b) == Results(s, a) + Results(Final(s, a), b)
  {
    if b == [] {
      assert a + b == a;
    } else {
      var pre, c := b[..|b| - 1], b[|b| - 1];
      assert a + b == (a + pre) + [c] && b == pre + [c];
      ResultsSplit(s, a, pre);
      FinalSplit(s, a, pre);
      EventsSnoc(s, a + pre, c);
      EventsSnoc(Final(s, a), pre, c);
      Assoc(Results(s, a), Results(Final(s, a), pre), [Result(Final(s, a + pre), c)]);
    }
  }

  /** Snapshot plus log suffix equals the full log: same main index, version
      index, revision, per-command results and events; and the history a watcher
      may ask for, above the snapshot's revision, is the same record for record. */
  lemma SnapshotPlusSuffix(prefix: seq<RaftCmd>, data: SnapshotData, suffix: seq<RaftCmd>)
    requires Exports(data, Run(prefix))
    ensures var full, restored := Run(prefix + suffix), Final(Load(data), suffix);
            && restored.main == full.main && restored.cfg == full.cfg && restored.revision == full.revision
            && restored.compactRev == data.revision
            && Results(EMPTY, prefix + suffix) == Results(EMPTY, prefix) + Results(Load(data), suffix)
            && Stream(prefix + suffix) == Stream(prefix) + Events(Load(data), suffix)
            && (forall r :: data.revision < r <= full.revision ==>
                  r in restored.hist && r in full.hist && restored.hist[r] == full.hist[r])
  {
    RunFacts(prefix);
    FinalSplit(EMPTY, prefix, suffix);
    EventsSplit(EMPTY, prefix, suffix);
    ResultsSplit(EMPTY, prefix, suffix);
    LoadExported(data, Run(prefix));
    SuffixAgrees(Run(prefix), Load(data), suffix);
    TracksSelf(Run(prefix));
    LoadTracks(data, Run(prefix), Run(prefix));
    SuffixTracks(Load(data), Run(prefix), suffix);
    TracksInv(Load(data), Run(prefix));
    FinalGrows(Load(data), suffix);
  }

  lemma {:induction false} SuffixTracks(s: State, ref: State, cmds: seq<RaftCmd>)
    requires Tracks(s, ref) && Inv(ref) && s.cfg == ref.cfg
    ensures Tracks(Final(s, cmds), Final(ref, cmds)) && Inv(Final(ref, cmds))
    ensures Final(s, cmds).cfg == Final(ref, cmds).cfg
  {
    SuffixAgrees(s, ref, cmds);
    if cmds == [] {
    } else {
      var pre, c := cmds[..|cmds| - 1], cmds[|cmds| - 1];
      SuffixTracks(s, ref, pre);
      ApplyAgrees(Final(s, pre), Final(ref, pre), c);
      ApplyKeepsInv(Final(ref, pre), c, true);
    }
  }

  // ---------------------------------------------------------- divergence

  lemma TracksSelf(ref: State)
    requires Inv(ref)
    ensures Tracks(ref, ref)
  {
    forall k | k in ref.main ensures ref.main[k].revision in ref.hist { assert MainOK(ref, k); }
  }

  /** Without retention the promise fails: whenever a published version's record
      is outside the newest max(n,1), a replica that compacts refuses the rollback
      that the uncompacted run performs. */
  lemma CompactedRollbackDiverges(ref: State, keep: int, p: (string, nat))
    requires Inv(ref) && p in ref.cfg && ref.cfg[p].revision in ref.hist
    requires ref.hist[ref.cfg[p].revision] == ref.cfg[p]
    requires Newer(ref.hist, p.0, ref.cfg[p].revision, ref.revision) >= if keep < 1 then 1 else keep
    ensures var s := Compact(ref, Victims(ref, keep));
            && Tracks(s, ref)
            && Result(s, Rollback(p.0, p.1)) == Failure(VERSION_NOT_FOUND)
            && Result(ref, Rollback(p.0, p.1)).code == OK
  {
    var v := Victims(ref, keep);
    assert CfgOK(ref, p);
    var r := ref.cfg[p].revision;
    assert r in v && (v[r].key, v[r].version) == p;
    assert p in VersionsOf(v);
    ScanSupersedes(ref, keep);
    TracksSelf(ref);
    CompactTracks(ref, ref, v);
    ApplyAgrees(Compact(ref, v), ref, Rollback(p.0, p.1));
  }

  /** A concrete divergence: two publications, a compaction to one version, a
      rollback to version 1. */
  lemma RollbackDiverges()
    ensures var ref := Run([Publish("k", "a"), Publish("k", "b")]);
            var s := Compact(ref, Victims(ref, 1));
            && Tracks(s, ref)
            && Result(s, Rollback("k", 1)) == Failure(VERSION_NOT_FOUND)
            && Result(ref, Rollback("k", 1)).code == OK
  {
    var log := [Publish("k", "a"), Publish("k", "b")];
    var ref := Run(log);
    TwoPublications();
    RunFacts(log);
    assert Newer(ref.hist, "k", 1, 1) == 0;
    CompactedRollbackDiverges(ref, 1, ("k", 1));
  }

  lemma TwoPublications()
    ensures var r1, r2 := KV("k", "a", 1, 1, false), KV("k", "b", 2, 2, false);
            Run([Publish("k", "a"), Publish("k", "b")]) ==
            State(map["k" := r2], map[1 := r1, 2 := r2], map[("k", 1) := r1, ("k", 2) := r2], 2, 0)
  {
    var c1, c2 := Publish("k", "a"), Publish("k", "b");
    var r1, r2 := KV("k", "a", 1, 1, false), KV("k", "b", 2, 2, false);
    assert [] + [c1] == [c1] && [c1] + [c2] == [c1, c2];
    RunSnoc([], c1);
    RunSnoc([c1], c2);
    SingleWrite(EMPTY, r1);
    SingleWrite(Run([c1]), r2);
    assert Run([c1]) == State(map["k" := r1], map[1 := r1], map[("k", 1) := r1], 1, 0);
  }
}
