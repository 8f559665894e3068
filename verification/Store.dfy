/** The store over the byte map.  Every operation is proved to do to the abstract
    state what module Mvcc says (src/store/store.cpp).  `writeOk` is the status of
    the LevelDB write: a failed write changes nothing. */
module StoreModel {
  import opened Records
  import opened Mvcc
  import opened History
  import opened StoreKey
  import opened LevelDb
  import opened Replication
  import opened Scans
  import opened Maintenance

  class Store {
    var db: Db
    ghost var typed: Typed
    ghost var abs: State

    /** The bytes encode the typed cells, the typed cells mean the abstract state. */
    ghost predicate Valid()
      reads this
    {
      Encodes(db, typed) && Means(typed, abs) && Inv(abs) && abs.revision < TWO_63
    }

    constructor ()
      ensures Valid() && abs == EMPTY
    {
      db, typed, abs := map[], map[], EMPTY;
    }

    // --------------------------------------------------------------- reads

    method ReadMain(key: string) returns (found: Option<KV>)
      requires Valid()
      ensures found == if key in abs.main then Some(abs.main[key]) else None
    {
      Lookup(db, typed, Main(key));
      if MainKey(key) !in db {
        return None;
      }
      return Some(db[MainKey(key)].kv);
    }

    method ReadCounter(sh: Shape) returns (v: nat)
      requires Valid() && (sh.RevisionMeta? || sh.CompactMeta?)
      ensures v == if sh.RevisionMeta? then abs.revision else abs.compactRev
    {
      Lookup(db, typed, sh);
      if KeyOf(sh) !in db {
        return 0;
      }
      v := DecodeUint64(db[KeyOf(sh)].bytes);
      Uint64RoundTrip(if sh.RevisionMeta? then abs.revision else abs.compactRev);
    }

    method CurrentRevision() returns (v: nat)
      requires Valid()
      ensures v == abs.revision
    {
      v := ReadCounter(RevisionMeta);
    }

    method CompactRev() returns (v: nat)
      requires Valid()
      ensures v == abs.compactRev
    {
      v := ReadCounter(CompactMeta);
    }

    method Get(key: string) returns (code: Code, kv: Option<KV>)
      requires Valid()
      ensures key in abs.main && !abs.main[key].deleted ==> code == OK && kv == Some(abs.main[key])
      ensures key !in abs.main || abs.main[key].deleted ==> code == KEY_NOT_FOUND && kv == None
    {
      var found := ReadMain(key);
      if found.None? || found.value.deleted {
        return KEY_NOT_FOUND, None;
      }
      return OK, found;
    }

    method GetConfig(key: string, version: int) returns (code: Code, kv: Option<KV>)
      requires Valid() && version < TWO_63
      ensures version > 0 && (key, version) in abs.cfg ==> code == OK && kv == Some(abs.cfg[(key, version)])
      ensures version > 0 && (key, version) !in abs.cfg ==> code == VERSION_NOT_FOUND && kv == None
      ensures version <= 0 && key in abs.main && !abs.main[key].deleted ==> code == OK && kv == Some(abs.main[key])
      ensures version <= 0 && (key !in abs.main || abs.main[key].deleted) ==> code == KEY_NOT_FOUND && kv == None
    {
      if version <= 0 {
        code, kv := Get(key);
        return;
      }
      Lookup(db, typed, Config(key, version));
      if ConfigKey(key, version) !in db {
        return VERSION_NOT_FOUND, None;
      }
      var found := db[ConfigKey(key, version)].kv;
      if found.deleted {
        return VERSION_NOT_FOUND, None;
      }
      return OK, Some(found);
    }

    // -------------------------------------------------------------- writes

    /** The common tail of the write path: one batch with counter, main index and
        history, and the version index for a publication. */
    method WriteRecord(kv: KV, publish: bool, writeOk: bool) returns (ok: bool)
      requires Valid() && abs.revision + 1 < TWO_63
      requires kv == NewRecord(abs, kv.key, kv.value, kv.deleted) && (publish ==> !kv.deleted)
      modifies this
      ensures Valid() && ok == writeOk
      ensures abs == if writeOk then Commit(old(abs), [kv], publish) else old(abs)
    {
      assert kv.version < TWO_63 by {
        if kv.key in abs.main { assert MainOK(abs, kv.key); }
      }
      var batch := RecordOps(kv);
      if publish {
        batch := batch + [PutOp(Config(kv.key, kv.version), Record(kv))];
      }
      batch := batch + [RevisionOp(kv.revision)];
      ghost var ops := batch;
      db := WriteBatch(db, typed, batch, writeOk);
      if writeOk {
        CommitMeans(typed, abs, kv, publish, ops);
        typed := ApplyOps(typed, ops);
        abs := Commit(abs, [kv], publish);
      }
      return writeOk;
    }

    method Put(key: string, value: string, writeOk: bool) returns (rev: int, out: Option<KV>)
      requires Valid() && abs.revision + 1 < TWO_63
      modifies this
      ensures Valid()
      ensures writeOk ==>
                var kv := NewRecord(old(abs), key, value, false);
                abs == Commit(old(abs), [kv], false) && out == Some(kv) && rev == kv.revision
      ensures !writeOk ==> abs == old(abs) && rev == -1 && out == None
    {
      var was := ReadMain(key);
      var cur := CurrentRevision();
      var kv := KV(key, value, if was.Some? then was.value.version + 1 else 1, cur + 1, false);
      var ok := WriteRecord(kv, false, writeOk);
      if !ok {
        return -1, None;
      }
      return kv.revision, Some(kv);
    }

    method Delete(key: string, writeOk: bool) returns (rev: int, out: Option<KV>)
      requires Valid() && abs.revision + 1 < TWO_63
      modifies this
      ensures Valid()
      ensures writeOk ==>
                var kv := NewRecord(old(abs), key, "", true);
                abs == Commit(old(abs), [kv], false) && out == Some(kv) && rev == kv.revision
      ensures !writeOk ==> abs == old(abs) && rev == -1 && out == None
    {
      var cur := CurrentRevision();
      var was := ReadMain(key);
      var kv := KV(key, "", if was.Some? then was.value.version + 1 else 1, cur + 1, true);
      var ok := WriteRecord(kv, false, writeOk);
      if !ok {
        return -1, None;
      }
      return kv.revision, Some(kv);
    }

    method CompareAndSwap(key: string, expected: string, value: string, writeOk: bool)
      returns (rev: int, out: Option<KV>, code: Code)
      requires Valid() && abs.revision + 1 < TWO_63
      modifies this
      ensures Valid()
      ensures !CasMatches(old(abs), key, expected) ==>
                abs == old(abs) && rev == -1 && out == None && code == CAS_FAILED
      ensures CasMatches(old(abs), key, expected) && writeOk ==>
                var kv := NewRecord(old(abs), key, value, false);
                abs == Commit(old(abs), [kv], false) && out == Some(kv) && rev == kv.revision && code == OK
      ensures CasMatches(old(abs), key, expected) && !writeOk ==>
                abs == old(abs) && rev == -1 && out == None && code == INTERNAL
    {
      var was := ReadMain(key);
      var absent := was.None? || was.value.deleted;
      var matched := if expected == "" then absent else !absent && was.value.value == expected;
      if !matched {
        return -1, None, CAS_FAILED;
      }
      var cur := CurrentRevision();
      var kv := KV(key, value, if was.Some? then was.value.version + 1 else 1, cur + 1, false);
      var ok := WriteRecord(kv, false, writeOk);
      if !ok {
        return -1, None, INTERNAL;
      }
      return kv.revision, Some(kv), OK;
    }

    method Publish(key: string, value: string, writeOk: bool) returns (rev: int, out: Option<KV>)
      requires Valid() && abs.revision + 1 < TWO_63
      modifies this
      ensures Valid()
      ensures writeOk ==>
                var kv := NewRecord(old(abs), key, value, false);
                abs == Commit(old(abs), [kv], true) && out == Some(kv) && rev == kv.revision
      ensures !writeOk ==> abs == old(abs) && rev == -1 && out == None
    {
      var was := ReadMain(key);
      var cur := CurrentRevision();
      var kv := KV(key, value, if was.Some? then was.value.version + 1 else 1, cur + 1, false);
      var ok := WriteRecord(kv, true, writeOk);
      if !ok {
        return -1, None;
      }
      return kv.revision, Some(kv);
    }

    method Rollback(key: string, target: int, writeOk: bool) returns (rev: int, out: Option<KV>, ok: bool)
      requires Valid() && abs.revision + 1 < TWO_63 && target < TWO_63
      modifies this
      ensures Valid()
      ensures ok <==> Mvcc.GetConfig(old(abs), key, target).1.Some?
      ensures !ok ==> abs == old(abs) && rev == -1 && out == None
      ensures ok && writeOk ==>
                var kv := NewRecord(old(abs), key, Mvcc.GetConfig(old(abs), key, target).1.value.value, false);
                abs == Commit(old(abs), [kv], true) && out == Some(kv) && rev == kv.revision
      ensures ok && !writeOk ==> abs == old(abs) && rev == -1 && out == None
    {
      var code, found := GetConfig(key, target);
      if found.None? {
        return -1, None, false;
      }
      rev, out := Publish(key, found.value.value, writeOk);
      ok := true;
    }

    /** Revisions count up locally; versions are read from the database, which the
        pending batch has not reached. */
    method BuildBatch(puts: seq<(string, string)>) returns (batch: seq<Op>, recs: seq<KV>)
      requires Valid() && abs.revision + |puts| < TWO_63
      ensures recs == BatchRecords(abs, puts) && batch == BatchOps(recs) + [RevisionOp(abs.revision + |puts|)]
      ensures forall j :: 0 <= j < |batch| ==> batch[j].shape.Valid()
    {
      ghost var goal := BatchRecords(abs, puts);
      batch, recs := [], [];
      var last := CurrentRevision();
      var i := 0;
      while i < |puts|
        invariant 0 <= i <= |puts| && last == abs.revision + i
        invariant recs == goal[..i] && batch == BatchOps(recs)
        invariant forall j :: 0 <= j < |batch| ==> batch[j].shape.Valid()
      {
        last := last + 1;
        var was := ReadMain(puts[i].0);
        var kv := KV(puts[i].0, puts[i].1, if was.Some? then was.value.version + 1 else 1, last, false);
        assert goal[i] == kv && goal[..i + 1] == recs + [kv];
        batch := batch + RecordOps(kv);
        recs := recs + [kv];
        assert recs[..|recs| - 1] == goal[..i];
        i := i + 1;
      }
      assert goal[..i] == goal;
      batch := batch + [RevisionOp(last)];
    }

    method BatchPut(puts: seq<(string, string)>, writeOk: bool) returns (rev: int, out: seq<KV>)
      requires Valid() && abs.revision + |puts| < TWO_63
      modifies this
      ensures Valid()
      ensures puts == [] || writeOk ==>
                var recs := BatchRecords(old(abs), puts);
                abs == Commit(old(abs), recs, false) && out == recs && rev == 0
      ensures puts != [] && !writeOk ==> abs == old(abs) && rev == -1 && out == []
    {
      if puts == [] {
        assert BatchRecords(abs, puts) == [];
        return 0, [];
      }
      var batch, recs := BuildBatch(puts);
      ghost var next := Commit(abs, recs, false);
      BatchCommitMeans(typed, abs, puts, recs, batch, next);
      CommitBatch(batch, next, writeOk);
      if !writeOk {
        return -1, [];
      }
      return 0, recs;
    }

    // ------------------------------------------------------ scanning reads

    /** NewIterator pins the current database state. */
    method Pin() returns (it: seq<Entry>, ghost shapes: seq<Shape>)
      requires Valid()
      ensures Scans.Pinned(it, shapes, typed, abs)
    {
      it := NewIterator(db);
      shapes := ShapeListing(it, db, typed);
    }

    /** ReplayEvents with an iterator pinned earlier, over state `then`; compact_rev
        is read now. */
    method ReplayEvents(it: seq<Entry>, ghost shapes: seq<Shape>, ghost t: Typed, ghost then': State,
                        from: int, cur: nat, filter: string, max: int)
      returns (code: Code, out: seq<WatchEvent>)
      requires Valid() && Scans.Pinned(it, shapes, t, then') && from < TWO_63 && cur < TWO_63
      ensures (code, out) == Replay(then'.hist, abs.compactRev, from, cur, filter, max)
    {
      if max <= 0 {
        return OK, [];
      }
      var lo := if from < 0 then 0 else from;
      var compactRev := CompactRev();
      if lo < compactRev {
        return COMPACTED, [];
      }
      if lo >= cur {
        return OK, [];
      }
      out := ReplayScan(it, shapes, t, then', lo, cur, filter, max);
      code := OK;
    }

    method GetHistory(key: string) returns (out: seq<KV>)
      requires Valid()
      ensures forall kv :: kv in out <==>
                kv.key == key && (key, kv.version) in abs.cfg && abs.cfg[(key, kv.version)] == kv
      ensures forall i, j :: 0 <= i < j < |out| ==> out[i].version < out[j].version
    {
      var it; ghost var shapes;
      it, shapes := Pin();
      out := HistoryScan(it, shapes, typed, abs, key);
      forall p | p in abs.cfg
        ensures abs.cfg[p].version == p.1 && abs.cfg[p].key == p.0 && !abs.cfg[p].deleted && 1 <= p.1 <= abs.revision
      {
        assert CfgOK(abs, p);
      }
      PublishedExact(abs.cfg, key, abs.revision);
    }

    // ---------------------------------------------------------- compaction

    /** First phase of Compaction. */
    method ScanHistory(keep: int) returns (dels: seq<Deletion>, top: nat)
      requires Valid()
      ensures forall r: nat :: (exists d :: d in dels && d.rev == r) <==>
                r in abs.hist && Newer(abs.hist, abs.hist[r].key, r, abs.revision) >= if keep < 1 then 1 else keep
      ensures forall d :: d in dels ==>
                d.rev in abs.hist && abs.hist[d.rev].key == d.key && abs.hist[d.rev].version == d.ver
      ensures Lists(dels, Victims(abs, keep)) && top == TopRev(dels)
      ensures Superseded(abs, Victims(abs, keep))
    {
      var it; ghost var shapes;
      it, shapes := Pin();
      var per := CollectScan(it, shapes, typed, abs);
      assert InRange(abs) by {
        forall r | r in abs.hist ensures 1 <= r <= abs.revision { assert HistOK(abs, r); }
      }
      dels, top := MarkAll(per, keep, abs);
      ScanSupersedes(abs, keep);
    }

    /** Second phase of Compaction, possibly after further writes. */
    method EraseHistory(dels: seq<Deletion>, top: nat, ghost victims: map<nat, KV>, writeOk: bool)
      returns (removed: nat)
      requires Valid() && Superseded(abs, victims) && Lists(dels, victims) && top == TopRev(dels)
      requires forall i :: 0 <= i < |dels| ==> dels[i].rev < TWO_63 && dels[i].ver < TWO_63
      modifies this
      ensures Valid() && removed == |victims|
      ensures abs == if writeOk then Compact(old(abs), victims) else old(abs)
    {
      removed := |dels|;
      ListsSound(dels, victims);
      if removed > 0 {
        CommitErase(dels, top, victims, writeOk);
      } else {
        assert |victims| == 0;
      }
    }

    method CommitErase(dels: seq<Deletion>, top: nat, ghost victims: map<nat, KV>, writeOk: bool)
      requires Valid() && Superseded(abs, victims) && Lists(dels, victims) && top == TopRev(dels) && dels != []
      requires forall i :: 0 <= i < |dels| ==> dels[i].rev < TWO_63 && dels[i].ver < TWO_63
      modifies this
      ensures Valid()
      ensures abs == if writeOk then Compact(old(abs), victims) else old(abs)
    {
      var was := CompactRev();
      var compactRev := if was < top then top else was;
      EraseCommits(typed, abs, dels, top, victims, compactRev);
      var batch := BuildErase(dels, compactRev);
      CommitBatch(batch, Compact(abs, victims), writeOk);
    }

    /** Write a batch whose meaning is known. */
    method CommitBatch(batch: seq<Op>, ghost next: State, writeOk: bool)
      requires Valid() && forall i :: 0 <= i < |batch| ==> batch[i].shape.Valid()
      requires Means(ApplyOps(typed, batch), next) && Inv(next) && next.revision < TWO_63
      modifies this
      ensures Valid() && abs == if writeOk then next else old(abs)
    {
      db := WriteBatch(db, typed, batch, writeOk);
      if writeOk {
        typed, abs := ApplyOps(typed, batch), next;
      }
    }

    method BuildDeletes(dels: seq<Deletion>) returns (batch: seq<Op>)
      requires forall i :: 0 <= i < |dels| ==> dels[i].rev < TWO_63 && dels[i].ver < TWO_63
      ensures batch == DeleteOps(dels) && forall i :: 0 <= i < |batch| ==> batch[i].shape.Valid()
    {
      batch := [];
      var i := 0;
      while i < |dels|
        invariant 0 <= i <= |dels| && batch == DeleteOps(dels[..i])
        invariant forall j :: 0 <= j < |batch| ==> batch[j].shape.Valid()
      {
        assert dels[..i + 1][..i] == dels[..i];
        batch := batch + [DeleteOp(Version(dels[i].rev, dels[i].key)), DeleteOp(Config(dels[i].key, dels[i].ver))];
        i := i + 1;
      }
      assert dels[..i] == dels;
    }

    method BuildErase(dels: seq<Deletion>, compactRev: nat) returns (batch: seq<Op>)
      requires forall i :: 0 <= i < |dels| ==> dels[i].rev < TWO_63 && dels[i].ver < TWO_63
      requires compactRev < TWO_63
      ensures batch == DeleteOps(dels) + [PutOp(CompactMeta, Counter(Uint64(compactRev)))]
      ensures forall i :: 0 <= i < |batch| ==> batch[i].shape.Valid()
    {
      batch := BuildDeletes(dels);
      var bytes := EncodeUint64(compactRev);
      batch := batch + [PutOp(CompactMeta, Counter(bytes))];
    }

    /** The two phases back to back. */
    method Compaction(keep: int, writeOk: bool) returns (removed: nat)
      requires Valid()
      modifies this
      ensures Valid() && removed == |Victims(old(abs), keep)|
      ensures abs == if writeOk then Compact(old(abs), Victims(old(abs), keep)) else old(abs)
      ensures writeOk ==>
                var s := old(abs);
                forall r: nat :: r in abs.hist <==>
                  r in s.hist && Newer(s.hist, s.hist[r].key, r, s.revision) < if keep < 1 then 1 else keep
    {
      var dels, top := ScanHistory(keep);
      ListsSound(dels, Victims(abs, keep));
      forall i | 0 <= i < |dels| ensures dels[i].rev < TWO_63 && dels[i].ver < TWO_63 {
        assert HistOK(abs, dels[i].rev);
      }
      removed := EraseHistory(dels, top, Victims(abs, keep), writeOk);
    }

    // ------------------------------------------------------------ snapshots

    method ExportSnapshot() returns (data: SnapshotData)
      requires Valid()
      ensures Exports(data, abs)
    {
      var it; ghost var shapes;
      it, shapes := Pin();
      var rev := ExportRevision(it, shapes, typed, abs);
      var kvs := ExportMain(it, shapes, typed, abs);
      var cfgKvs := ExportConfig(it, shapes, typed, abs);
      data := SnapshotData(rev, kvs, cfgKvs);
    }

    /** The database is emptied first; what it held does not matter.  Any snapshot
        data is written record by record; data with one record per revision means
        the loaded state, and data exported from a valid store `source` makes a
        valid store again. */
    method LoadSnapshot(data: SnapshotData, ghost source: State, writeOk: bool) returns (ok: bool)
      requires Int64(data)
      modifies this
      ensures ok == writeOk && abs == (if writeOk then Load(data) else EMPTY)
      ensures Encodes(db, typed) && typed == if writeOk then ApplyOps(map[], LoadOps(data)) else map[]
      ensures OneEach(data.kvs) || !writeOk ==> Means(typed, abs)
      ensures (Inv(source) && Exports(data, source)) || !writeOk ==> Valid()
    {
      db, typed, abs := map[], map[], EMPTY;
      var batch := BuildLoad(data);
      LoadOpsValid(data);
      db := WriteBatch(db, typed, batch, writeOk);
      ok := writeOk;
      if writeOk {
        typed, abs := ApplyOps(typed, batch), Load(data);
        if OneEach(data.kvs) { LoadMeans(data); }
        if Inv(source) && Exports(data, source) { LoadedValid(data, source); }
      }
    }

    method BuildLoad(data: SnapshotData) returns (batch: seq<Op>)
      ensures batch == LoadOps(data)
    {
      batch := [];
      var i := 0;
      while i < |data.kvs|
        invariant 0 <= i <= |data.kvs| && batch == BatchOps(data.kvs[..i])
      {
        assert data.kvs[..i + 1][..i] == data.kvs[..i];
        batch := batch + RecordOps(data.kvs[i]);
        i := i + 1;
      }
      assert data.kvs[..i] == data.kvs;
      var j := 0;
      while j < |data.cfgKvs|
        invariant 0 <= j <= |data.cfgKvs| && batch == BatchOps(data.kvs) + ConfigOps(data.cfgKvs)[..j]
      {
        var kv := data.cfgKvs[j];
        batch := batch + [PutOp(Config(kv.key, kv.version), Record(kv))];
        j := j + 1;
      }
      assert ConfigOps(data.cfgKvs)[..j] == ConfigOps(data.cfgKvs);
      if data.revision > 0 {
        batch := batch + [RevisionOp(data.revision), PutOp(CompactMeta, Counter(Uint64(data.revision)))];
      }
    }
  }

  /** on_snapshot_save on one node and on_snapshot_load on another, bytes to bytes:
      the receiver ends with the sender's main index, version index and revision,
      whatever it held before, and refuses resumes below that revision. */
  method TransferSnapshot(sender: Store, receiver: Store)
    requires sender.Valid() && sender != receiver
    modifies receiver
    ensures receiver.Valid() && sender.Valid() && sender.abs == old(sender.abs)
    ensures receiver.abs.main == sender.abs.main && receiver.abs.cfg == sender.abs.cfg
    ensures receiver.abs.revision == receiver.abs.compactRev == sender.abs.revision
    ensures forall r :: r in receiver.abs.hist <==>
              r in sender.abs.hist && sender.abs.main[sender.abs.hist[r].key] == sender.abs.hist[r]
  {
    var data := sender.ExportSnapshot();
    forall r | r in sender.abs.hist ensures sender.abs.hist[r].key in sender.abs.main {
      assert HistOK(sender.abs, r);
    }
    LoadExported(data, sender.abs);
    ExportedInt64(data, sender.abs);
    var ok := receiver.LoadSnapshot(data, sender.abs, true);
  }

  lemma LoadedValid(data: SnapshotData, source: State)
    requires Inv(source) && Exports(data, source)
    ensures OneEach(data.kvs) && Inv(Load(data))
  {
    ExportedOneEach(data, source);
    TracksSelf(source);
    LoadTracks(data, source, source);
    TracksInv(Load(data), source);
  }

  lemma {:induction false} EraseCommits(t: Typed, s: State, dels: seq<Deletion>, top: nat, victims: map<nat, KV>, compactRev: nat)
    requires Means(t, s) && Inv(s) && Superseded(s, victims) && Lists(dels, victims) && top == TopRev(dels)
    requires dels != [] && compactRev == Max(s.compactRev, top)
    ensures Means(ApplyOps(t, DeleteOps(dels) + [PutOp(CompactMeta, Counter(Uint64(compactRev)))]), Compact(s, victims))
    ensures Inv(Compact(s, victims)) && Compact(s, victims).revision == s.revision && compactRev <= s.revision
  {
    EraseMeans(t, s, dels, victims);
    TopIsMax(dels, victims);
    CompactKeepsInv(s, victims);
    MaxUnique(top, victims.Keys);
    var all := DeleteOps(dels) + [PutOp(CompactMeta, Counter(Uint64(compactRev)))];
    assert all[..|all| - 1] == DeleteOps(dels);
  }

  lemma MaxUnique(m: nat, rs: set<nat>)
    requires IsMax(m, rs)
    ensures m == MaxOf(rs)
  {
  }

  /** The batch of one write, with or without the version index entry. */
  lemma CommitMeans(t: Typed, s: State, kv: KV, publish: bool, ops: seq<Op>)
    requires Means(t, s) && Inv(s) && kv == NewRecord(s, kv.key, kv.value, kv.deleted)
    requires publish ==> !kv.deleted
    requires ops == RecordOps(kv) + (if publish then [PutOp(Config(kv.key, kv.version), Record(kv))] else [])
                    + [RevisionOp(kv.revision)]
    ensures Means(ApplyOps(t, ops), Commit(s, [kv], publish)) && Inv(Commit(s, [kv], publish))
    ensures Commit(s, [kv], publish).revision == s.revision + 1
  {
    FreshRevision(s, kv.revision);
    WriteMeans(t, s, kv);
    OneWrite(s, kv);
    if publish {
      PublishOps(t, kv, ops);
      IndexMeans(ApplyOp(ApplyOps(t, RecordOps(kv)), RevisionOp(kv.revision)), Write(s, kv), kv);
      PublishInv(s, kv);
    } else {
      assert ops[..|ops| - 1] == RecordOps(kv);
    }
  }

  lemma BatchCommitMeans(t: Typed, s: State, puts: seq<(string, string)>, recs: seq<KV>, ops: seq<Op>, next: State)
    requires Means(t, s) && Inv(s) && puts != [] && recs == BatchRecords(s, puts)
    requires ops == BatchOps(recs) + [RevisionOp(s.revision + |puts|)] && next == Commit(s, recs, false)
    ensures Means(ApplyOps(t, ops), next) && Inv(next) && next.revision == s.revision + |puts|
  {
    DecideChain(s, RaftCmd.BatchPut(puts));
    BatchMeans(t, s, recs);
    ApplySnoc(t, BatchOps(recs), RevisionOp(s.revision + |puts|));
    WriteAllInv(s, recs);
    WriteAllCounters(s, recs);
  }

  lemma ApplySnoc(t: Typed, ops: seq<Op>, op: Op)
    ensures ApplyOps(t, ops + [op]) == ApplyOp(ApplyOps(t, ops), op)
  {
    assert (ops + [op])[..|ops|] == ops;
  }

  lemma OneWrite(s: State, kv: KV)
    requires Inv(s) && kv == NewRecord(s, kv.key, kv.value, kv.deleted)
    ensures WriteAll(s, [kv]) == Write(s, kv) && Inv(Write(s, kv))
  {
    SingleWrite(s, kv);
    forall p | p in s.cfg && p.0 == kv.key ensures p.1 < kv.version { assert CfgOK(s, p); }
    if kv.key in s.main { assert MainOK(s, kv.key); }
    WriteKeepsInv(s, kv);
  }

  lemma PublishInv(s: State, kv: KV)
    requires Inv(s) && kv == NewRecord(s, kv.key, kv.value, false)
    ensures Inv(Commit(s, [kv], true))
  {
    ApplyKeepsInv(s, RaftCmd.Publish(kv.key, kv.value), true);
  }

  lemma PublishOps(t: Typed, kv: KV, ops: seq<Op>)
    requires ops == RecordOps(kv) + [PutOp(Config(kv.key, kv.version), Record(kv))] + [RevisionOp(kv.revision)]
    ensures ApplyOps(t, ops) ==
            ApplyOp(ApplyOps(t, RecordOps(kv)), RevisionOp(kv.revision))[Config(kv.key, kv.version) := Record(kv)]
  {
    var cfg := PutOp(Config(kv.key, kv.version), Record(kv));
    assert ops[..|ops| - 1] == RecordOps(kv) + [cfg];
    assert (RecordOps(kv) + [cfg])[..|RecordOps(kv)|] == RecordOps(kv);
  }
}
