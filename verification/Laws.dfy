/** What each command writes, files and answers, and what reads and replays show
    afterwards, in terms of the records alone (src/store/store.cpp,
    src/store/store_ops.cpp). */
module Laws {
  import opened Records
  import opened Mvcc
  import opened History

  // ------------------------------------------------------------- the writes

  /** A record written alone: `t` is `s` with kv as the key's current record and as
      the history's newest entry; the answer carries kv and announces it. */
  lemma OneRecord(s: State, cmd: RaftCmd, kv: KV)
    requires Decide(s, cmd) == Accept([kv], false) && !cmd.BatchPut?
    ensures After(s, cmd) == State(s.main[kv.key := kv], s.hist[kv.revision := kv], s.cfg, kv.revision, s.compactRev)
    ensures Result(s, cmd) == ApplyResult(OK, Some(kv), [], [MakeEvent(kv)])
  {
    SingleWrite(s, kv);
    assert EventsOf([kv]) == [MakeEvent(kv)];
  }

  lemma OnePublication(s: State, cmd: RaftCmd, kv: KV)
    requires Decide(s, cmd) == Accept([kv], true) && !cmd.BatchPut?
    ensures After(s, cmd) == State(s.main[kv.key := kv], s.hist[kv.revision := kv],
                                   s.cfg[(kv.key, kv.version) := kv], kv.revision, s.compactRev)
    ensures Result(s, cmd) == ApplyResult(OK, Some(kv), [], [MakeEvent(kv)])
  {
    SingleWrite(s, kv);
    assert EventsOf([kv]) == [MakeEvent(kv)];
  }

  lemma PutLaw(s: State, key: string, value: string)
    ensures var version := if key in s.main then s.main[key].version + 1 else 1;
            var kv := KV(key, value, version, s.revision + 1, false);
            && After(s, Put(key, value)) ==
               State(s.main[key := kv], s.hist[s.revision + 1 := kv], s.cfg, s.revision + 1, s.compactRev)
            && Result(s, Put(key, value)) ==
               ApplyResult(OK, Some(kv), [], [WatchEvent(s.revision + 1, key, value, version, "PUT")])
  {
    OneRecord(s, Put(key, value), NewRecord(s, key, value, false));
  }

  /** A delete writes a tombstone with no value, whether or not the key was there. */
  lemma DeleteLaw(s: State, key: string)
    ensures var version := if key in s.main then s.main[key].version + 1 else 1;
            var kv := KV(key, "", version, s.revision + 1, true);
            && After(s, Delete(key)) ==
               State(s.main[key := kv], s.hist[s.revision + 1 := kv], s.cfg, s.revision + 1, s.compactRev)
            && Result(s, Delete(key)) ==
               ApplyResult(OK, Some(kv), [], [WatchEvent(s.revision + 1, key, "", version, "DELETE")])
  {
    OneRecord(s, Delete(key), NewRecord(s, key, "", true));
  }

  /** The swap happens if and only if the live value is the expected one, or nothing
      is live and the expectation is empty; otherwise no revision is used. */
  lemma CasLaw(s: State, key: string, expected: string, value: string)
    ensures var swaps := if key in s.main && !s.main[key].deleted
                         then expected != "" && s.main[key].value == expected else expected == "";
            var version := if key in s.main then s.main[key].version + 1 else 1;
            var kv := KV(key, value, version, s.revision + 1, false);
            && After(s, Cas(key, expected, value)) ==
               (if swaps then State(s.main[key := kv], s.hist[s.revision + 1 := kv], s.cfg, s.revision + 1, s.compactRev)
                else s)
            && Result(s, Cas(key, expected, value)) ==
               if swaps then ApplyResult(OK, Some(kv), [], [WatchEvent(s.revision + 1, key, value, version, "PUT")])
               else ApplyResult(CAS_FAILED, None, [], [])
  {
    if CasMatches(s, key, expected) {
      OneRecord(s, Cas(key, expected, value), NewRecord(s, key, value, false));
    }
  }

  /** A publication is a put whose record is also filed under (key, version). */
  lemma PublishLaw(s: State, key: string, value: string)
    ensures var version := if key in s.main then s.main[key].version + 1 else 1;
            var kv := KV(key, value, version, s.revision + 1, false);
            && After(s, Publish(key, value)) ==
               State(s.main[key := kv], s.hist[s.revision + 1 := kv], s.cfg[(key, version) := kv],
                     s.revision + 1, s.compactRev)
            && Result(s, Publish(key, value)) ==
               ApplyResult(OK, Some(kv), [], [WatchEvent(s.revision + 1, key, value, version, "PUT")])
  {
    OnePublication(s, Publish(key, value), NewRecord(s, key, value, false));
  }

  /** A rollback publishes again the value of the published version `target`, or of
      the live record when `target` is not positive; it keeps everything else, and is
      refused when there is no such version. */
  lemma RollbackLaw(s: State, key: string, target: int)
    requires Inv(s)
    ensures var found := if target > 0 then (key, target) in s.cfg else key in s.main && !s.main[key].deleted;
            if !found then
              After(s, Rollback(key, target)) == s &&
              Result(s, Rollback(key, target)) == ApplyResult(VERSION_NOT_FOUND, None, [], [])
            else
              var value := if target > 0 then s.cfg[(key, target)].value else s.main[key].value;
              var version := s.main[key].version + 1;
              var kv := KV(key, value, version, s.revision + 1, false);
              && After(s, Rollback(key, target)) ==
                 State(s.main[key := kv], s.hist[s.revision + 1 := kv], s.cfg[(key, version) := kv],
                       s.revision + 1, s.compactRev)
              && Result(s, Rollback(key, target)) ==
                 ApplyResult(OK, Some(kv), [], [WatchEvent(s.revision + 1, key, value, version, "PUT")])
  {
    var (_, found) := GetConfig(s, key, target);
    if target > 0 && (key, target) in s.cfg { assert CfgOK(s, (key, target)); }
    if found.Some? {
      OnePublication(s, Rollback(key, target), NewRecord(s, key, found.value.value, false));
    }
  }

  /** A key's last record in a batch becomes its current one. */
  lemma {:induction false} BatchLast(s: State, recs: seq<KV>, i: nat)
    requires i < |recs| && forall j :: i < j < |recs| ==> recs[j].key != recs[i].key
    ensures recs[i].key in WriteAll(s, recs).main && WriteAll(s, recs).main[recs[i].key] == recs[i]
  {
    if i < |recs| - 1 { BatchLast(s, recs[..|recs| - 1], i); }
  }

  lemma {:induction false} BatchOther(s: State, recs: seq<KV>, key: string)
    requires forall i :: 0 <= i < |recs| ==> recs[i].key != key
    ensures var t := WriteAll(s, recs);
            (key in t.main <==> key in s.main) && (key in s.main ==> t.main[key] == s.main[key])
  {
    if recs == [] {
    } else {
      BatchOther(s, recs[..|recs| - 1], key);
    }
  }

  /** A batch files its pairs under consecutive revisions, with versions counted from
      the state before the batch, and announces them in order. */
  lemma BatchFiles(s: State, puts: seq<(string, string)>, i: nat)
    requires Inv(s) && i < |puts|
    ensures var t, res := After(s, BatchPut(puts)), Result(s, BatchPut(puts));
            var (key, value) := puts[i];
            var version := if key in s.main then s.main[key].version + 1 else 1;
            var kv := KV(key, value, version, s.revision + 1 + i, false);
            && |res.kvs| == |res.events| == |puts| && res.kvs[i] == kv
            && res.events[i] == WatchEvent(s.revision + 1 + i, key, value, version, "PUT")
            && s.revision + 1 + i in t.hist && t.hist[s.revision + 1 + i] == kv
  {
    DecideChain(s, BatchPut(puts));
    WriteAllHist(s, BatchRecords(s, puts), s.revision + 1 + i);
  }

  /** A batch moves the revision by its length and publishes nothing; what was in the
      history stays. */
  lemma BatchCounts(s: State, puts: seq<(string, string)>)
    requires Inv(s)
    ensures var t, res := After(s, BatchPut(puts)), Result(s, BatchPut(puts));
            && t.revision == s.revision + |puts| && t.cfg == s.cfg && t.compactRev == s.compactRev
            && res.code == OK && res.kv == None
            && forall r :: r in s.hist ==> r in t.hist && t.hist[r] == s.hist[r]
  {
    var recs := BatchRecords(s, puts);
    DecideChain(s, BatchPut(puts));
    CommitHist(s, recs, false);
    WriteAllCounters(s, recs);
  }

  /** A key's last pair becomes current; other keys keep their record. */
  lemma BatchCurrent(s: State, puts: seq<(string, string)>)
    requires Inv(s)
    ensures var t, res := After(s, BatchPut(puts)), Result(s, BatchPut(puts));
            |res.kvs| == |puts| &&
            forall i :: 0 <= i < |puts| && (forall j :: i < j < |puts| ==> puts[j].0 != puts[i].0) ==>
              puts[i].0 in t.main && t.main[puts[i].0] == res.kvs[i]
    ensures var t := After(s, BatchPut(puts));
            forall key :: (forall i :: 0 <= i < |puts| ==> puts[i].0 != key) ==>
              (key in t.main <==> key in s.main) && (key in s.main ==> t.main[key] == s.main[key])
  {
    var recs := BatchRecords(s, puts);
    forall i | 0 <= i < |puts| && (forall j :: i < j < |puts| ==> puts[j].0 != puts[i].0)
      ensures puts[i].0 in WriteAll(s, recs).main && WriteAll(s, recs).main[puts[i].0] == recs[i]
    {
      BatchLast(s, recs, i);
    }
    forall key: string | forall i :: 0 <= i < |puts| ==> puts[i].0 != key
      ensures var t := WriteAll(s, recs);
              (key in t.main <==> key in s.main) && (key in s.main ==> t.main[key] == s.main[key])
    {
      BatchOther(s, recs, key);
    }
  }

  /** A command of an unknown kind is refused. */
  lemma UnknownLaw(s: State, writeOk: bool)
    ensures Apply(s, Unknown, writeOk) == (s, ApplyResult(INTERNAL, None, [], []))
  {
  }

  /** When the database write fails nothing changes; the answer is an internal error
      unless the command was refused before it wrote or had nothing to write. */
  lemma FailedWriteLaw(s: State, cmd: RaftCmd)
    requires Inv(s)
    ensures Apply(s, cmd, false).0 == s
    ensures Apply(s, cmd, false).1 ==
            if Result(s, cmd).code != OK || cmd == BatchPut([]) then Result(s, cmd)
            else ApplyResult(INTERNAL, None, [], [])
  {
    if Decide(s, cmd).Accept? && Decide(s, cmd).recs == [] {
      assert WriteAll(s, []) == s;
    }
  }

  // -------------------------------------------------------------- the reads

  /** A read finds a record exactly if it is the key's current one and no tombstone. */
  lemma GetLaw(s: State, key: string, kv: KV)
    ensures Get(s, key) == (OK, Some(kv)) <==> key in s.main && s.main[key] == kv && !kv.deleted
    ensures Get(s, key) == (KEY_NOT_FOUND, None) <==> key !in s.main || s.main[key].deleted
  {
  }

  /** A positive version is looked up in the version index, any other is a read. */
  lemma GetConfigLaw(s: State, key: string, version: int, kv: KV)
    requires Inv(s)
    ensures version > 0 ==>
              && (GetConfig(s, key, version) == (OK, Some(kv)) <==> (key, version) in s.cfg && s.cfg[(key, version)] == kv)
              && (GetConfig(s, key, version) == (VERSION_NOT_FOUND, None) <==> (key, version) !in s.cfg)
    ensures version <= 0 ==>
              && (GetConfig(s, key, version) == (OK, Some(kv)) <==> key in s.main && s.main[key] == kv && !kv.deleted)
              && (GetConfig(s, key, version) == (KEY_NOT_FOUND, None) <==> key !in s.main || s.main[key].deleted)
  {
    if version > 0 && (key, version) in s.cfg { assert CfgOK(s, (key, version)); }
  }

  /** The keys a command writes. */
  predicate Writes(cmd: RaftCmd, key: string) {
    match cmd
    case BatchPut(puts) => exists i :: 0 <= i < |puts| && puts[i].0 == key
    case Unknown => false
    case _ => cmd.key == key
  }

  /** A command changes what a read of another key returns in no way. */
  lemma OthersUnread(s: State, cmd: RaftCmd, writeOk: bool, other: string)
    requires !Writes(cmd, other)
    ensures Get(Apply(s, cmd, writeOk).0, other) == Get(s, other)
  {
    if Decide(s, cmd).Accept? {
      BatchOther(s, Decide(s, cmd).recs, other);
    }
  }

  /** Reads after writes: a put is read back, a delete is read as missing, and so is
      every published version kept by either. */
  lemma ReadsAfterWrites(s: State, key: string, value: string, version: nat)
    requires Inv(s) && version > 0
    ensures var (code, kv) := Get(After(s, Put(key, value)), key);
            code == OK && kv.Some? && kv.value.value == value && kv.value.revision == s.revision + 1
    ensures Get(After(s, Delete(key)), key) == (KEY_NOT_FOUND, None)
    ensures Result(After(s, Delete(key)), Cas(key, value, value)).code == if value == "" then OK else CAS_FAILED
    ensures GetConfig(After(s, Put(key, value)), key, version) == GetConfig(s, key, version)
    ensures GetConfig(After(s, Delete(key)), key, version) == GetConfig(s, key, version)
    ensures GetConfig(After(s, Delete(key)), key, 0) == (KEY_NOT_FOUND, None)
  {
    PutLaw(s, key, value);
    DeleteLaw(s, key);
    CasLaw(After(s, Delete(key)), key, value, value);
  }

  /** A delete is announced as a DELETE, and a replay rebuilds the same event. */
  lemma DeleteIsReplayed(s: State, key: string, filter: string)
    requires Inv(s)
    ensures var t := After(s, Delete(key));
            var version := if key in s.main then s.main[key].version + 1 else 1;
            var e := WatchEvent(s.revision + 1, key, "", version, "DELETE");
            && Result(s, Delete(key)).events == [e]
            && Replay(t.hist, t.compactRev, s.revision, t.revision, filter, 1) ==
               (OK, if filter == "" || filter == key then [e] else [])
  {
    var t := After(s, Delete(key));
    DeleteLaw(s, key);
    assert EventsIn(t.hist, s.revision, s.revision, filter) == [];
    assert EventsIn(t.hist, s.revision, t.revision, filter) ==
           if filter == "" || filter == key then [ReplayedEvent(t.revision, t.hist[t.revision])] else [];
  }

  // ----------------------------------------------- publication and rollback

  lemma PublishedThere(s: State, key: string, value: string, kv: KV)
    requires kv == NewRecord(s, key, value, false)
    ensures kv.version > 0 && kv.version == if key in s.main then s.main[key].version + 1 else 1
    ensures GetConfig(After(s, Publish(key, value)), key, kv.version) == (OK, Some(kv))
  {
    PublishLaw(s, key, value);
  }

  /** A rollback of t makes value current and readable under the key's next version,
      or is refused because the version is not there. */
  ghost predicate RestoredOrRefused(t: State, key: string, version: nat, value: string) {
    var u, res := After(t, Rollback(key, version)), Result(t, Rollback(key, version));
    if (key, version) in t.cfg then
      && res.code == OK && key in t.main && key in u.main
      && u.main[key] == KV(key, value, t.main[key].version + 1, t.revision + 1, false)
      && Get(u, key) == GetConfig(u, key, u.main[key].version) == (OK, Some(u.main[key]))
    else u == t && res == ApplyResult(VERSION_NOT_FOUND, None, [], [])
  }

  /** Rolling back to a published version, any commands and compactions later, either
      makes the published value current and readable under the next version and
      revision, or is refused because the version was compacted. */
  lemma RollbackRestores(before: seq<Action>, key: string, value: string, later: seq<Action>,
                         s: State, version: nat, t: State)
    requires s == LocalRun(before).s && t == LocalRun(before + [Do(Publish(key, value), true)] + later).s
    requires version == if key in s.main then s.main[key].version + 1 else 1
    ensures RestoredOrRefused(t, key, version, value)
  {
    var published := before + [Do(Publish(key, value), true)];
    var kv := NewRecord(s, key, value, false);
    LaterState(before, Do(Publish(key, value), true));
    PublishedThere(s, key, value, kv);
    PublishedNeverReused(published, later, key, kv.version, kv);
    LocalRunInv(published + later);
    RollbackFinds(t, key, version, kv);
  }

  lemma RollbackFinds(t: State, key: string, version: nat, kv: KV)
    requires Inv(t) && version > 0
    requires GetConfig(t, key, version) in {(OK, Some(kv)), (VERSION_NOT_FOUND, None)}
    ensures RestoredOrRefused(t, key, version, kv.value)
  {
    RollbackLaw(t, key, version);
    if (key, version) in t.cfg { assert CfgOK(t, (key, version)); }
  }
}
