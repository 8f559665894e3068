/** The abstract store: what the flat byte map means, and what every command,
    compaction and snapshot does to it (src/store/store.cpp, src/store/store_ops.cpp). */
module Mvcc {
  import opened Records

  /** Current record per key, history by revision, published versions, and the
      two counters. */
  datatype State = State(
    main: map<string, KV>,
    hist: map<nat, KV>,
    cfg: map<(string, nat), KV>,
    revision: nat,
    compactRev: nat)

  const EMPTY: State := State(map[], map[], map[], 0, 0)

  // ---------------------------------------------------------------- reads

  predicate Live(s: State, key: string) {
    key in s.main && !s.main[key].deleted
  }

  function Get(s: State, key: string): (Code, Option<KV>) {
    if Live(s, key) then (OK, Some(s.main[key])) else (KEY_NOT_FOUND, None)
  }

  function GetConfig(s: State, key: string, version: int): (Code, Option<KV>) {
    if version <= 0 then Get(s, key)
    else if (key, version) !in s.cfg || s.cfg[(key, version)].deleted then (VERSION_NOT_FOUND, None)
    else (OK, Some(s.cfg[(key, version)]))
  }

  // ------------------------------------------------------------- commands

  function NextVersion(s: State, key: string): nat {
    if key in s.main then s.main[key].version + 1 else 1
  }

  function NewRecord(s: State, key: string, value: string, deleted: bool): KV {
    KV(key, value, NextVersion(s, key), s.revision + 1, deleted)
  }

  /** Versions come from the database, not from the batch under construction. */
  function BatchRecords(s: State, puts: seq<(string, string)>): (recs: seq<KV>)
    ensures |recs| == |puts|
  {
    seq(|puts|, i requires 0 <= i < |puts| =>
      KV(puts[i].0, puts[i].1, NextVersion(s, puts[i].0), s.revision + 1 + i, false))
  }

  /** What a command wants to write: nothing but an error, or records that go
      in as one batch and, for a publication, into the version index. */
  datatype Decision = Reject(code: Code) | Accept(recs: seq<KV>, publish: bool)

  predicate CasMatches(s: State, key: string, expected: string) {
    if expected == "" then !Live(s, key) else Live(s, key) && s.main[key].value == expected
  }

  function Decide(s: State, cmd: RaftCmd): Decision {
    match cmd
    case Put(k, v) => Accept([NewRecord(s, k, v, false)], false)
    case Delete(k) => Accept([NewRecord(s, k, "", true)], false)
    case BatchPut(puts) => Accept(BatchRecords(s, puts), false)
    case Cas(k, e, v) =>
      if CasMatches(s, k, e) then Accept([NewRecord(s, k, v, false)], false) else Reject(CAS_FAILED)
    case Publish(k, v) => Accept([NewRecord(s, k, v, false)], true)
    case Rollback(k, t) =>
      var (_, found) := GetConfig(s, k, t);
      if found.None? then Reject(VERSION_NOT_FOUND)
      else Accept([NewRecord(s, k, found.value.value, false)], true)
    case Unknown => Reject(INTERNAL)
  }

  function Write(s: State, kv: KV): State {
    s.(main := s.main[kv.key := kv], hist := s.hist[kv.revision := kv], revision := kv.revision)
  }

  function WriteAll(s: State, recs: seq<KV>): State {
    if recs == [] then s else Write(WriteAll(s, recs[..|recs| - 1]), recs[|recs| - 1])
  }

  function Index(s: State, kv: KV): State {
    s.(cfg := s.cfg[(kv.key, kv.version) := kv])
  }

  function Commit(s: State, recs: seq<KV>, publish: bool): State {
    var t := WriteAll(s, recs);
    if publish && recs != [] then Index(t, recs[|recs| - 1]) else t
  }

  function Failure(code: Code): ApplyResult { ApplyResult(code, None, [], []) }

  function Success(cmd: RaftCmd, recs: seq<KV>): ApplyResult {
    if cmd.BatchPut? then ApplyResult(OK, None, recs, EventsOf(recs))
    else ApplyResult(OK, if recs == [] then None else Some(recs[0]), [], EventsOf(recs))
  }

  /** One command; `writeOk` is the status of the LevelDB write. */
  function Apply(s: State, cmd: RaftCmd, writeOk: bool): (State, ApplyResult) {
    match Decide(s, cmd)
    case Reject(code) => (s, Failure(code))
    case Accept(recs, publish) =>
      if recs != [] && !writeOk then (s, Failure(INTERNAL))
      else (Commit(s, recs, publish), Success(cmd, recs))
  }

  function After(s: State, cmd: RaftCmd): State { Apply(s, cmd, true).0 }
  function Result(s: State, cmd: RaftCmd): ApplyResult { Apply(s, cmd, true).1 }

  // --------------------------------------------------------------- replay

  /** Matching events rebuilt from the history records in (lo, hi]. */
  function EventsIn(hist: map<nat, KV>, lo: nat, hi: nat, filter: string): seq<WatchEvent> {
    if hi <= lo then []
    else
      var rest := EventsIn(hist, lo, hi - 1, filter);
      if hi in hist && (filter == "" || hist[hi].key == filter)
      then rest + [ReplayedEvent(hi, hist[hi])] else rest
  }

  function Clamp(v: int): nat { if v < 0 then 0 else v }

  function Cut<T>(s: seq<T>, n: nat): seq<T> { if |s| <= n then s else s[..n] }

  /** ReplayEvents with the iterator pinned over `hist` and `compactRev` read
      separately, possibly later. */
  function Replay(hist: map<nat, KV>, compactRev: nat, from: int, cur: nat, filter: string, max: int)
    : (Code, seq<WatchEvent>)
  {
    if max <= 0 then (OK, [])
    else if Clamp(from) < compactRev then (COMPACTED, [])
    else (OK, Cut(EventsIn(hist, Clamp(from), cur, filter), max))
  }

  // ----------------------------------------------------------- compaction

  /** How many records of `key` have a revision in (lo, hi]. */
  function Newer(hist: map<nat, KV>, key: string, lo: nat, hi: nat): nat {
    if hi <= lo then 0
    else Newer(hist, key, lo, hi - 1) + if hi in hist && hist[hi].key == key then 1 else 0
  }

  function Keep(n: int): nat { if n < 1 then 1 else n }

  /** The records a scan marks: those with at least max(n,1) newer ones of the same key. */
  ghost function Victims(s: State, keep: int): map<nat, KV> {
    map r | r in s.hist && Newer(s.hist, s.hist[r].key, r, s.revision) >= Keep(keep) :: s.hist[r]
  }

  ghost predicate IsMax(m: nat, rs: set<nat>) {
    m in rs && forall r :: r in rs ==> r <= m
  }

  ghost function MaxOf(rs: set<nat>): (m: nat)
    requires rs != {}
    ensures IsMax(m, rs)
    decreases |rs|
  {
    var x :| x in rs;
    if rs == {x} then x
    else
      var n := MaxOf(rs - {x});
      assert rs == (rs - {x}) + {x};
      if n > x then n else x
  }

  function Max(a: nat, b: nat): nat { if a < b then b else a }

  ghost function VersionsOf(victims: map<nat, KV>): set<(string, nat)> {
    set r | r in victims :: (victims[r].key, victims[r].version)
  }

  /** The second phase: delete what an earlier scan marked, in one batch. */
  ghost function Compact(s: State, victims: map<nat, KV>): State {
    if victims == map[] then s
    else s.(hist := s.hist - victims.Keys,
            cfg := s.cfg - VersionsOf(victims),
            compactRev := Max(s.compactRev, MaxOf(victims.Keys)))
  }

  // ------------------------------------------------------------ snapshots

  function MainOf(kvs: seq<KV>): map<string, KV> {
    if kvs == [] then map[] else var kv := kvs[|kvs| - 1]; MainOf(kvs[..|kvs| - 1])[kv.key := kv]
  }

  function HistOf(kvs: seq<KV>): map<nat, KV> {
    if kvs == [] then map[] else var kv := kvs[|kvs| - 1]; HistOf(kvs[..|kvs| - 1])[kv.revision := kv]
  }

  function CfgOf(kvs: seq<KV>): map<(string, nat), KV> {
    if kvs == [] then map[]
    else var kv := kvs[|kvs| - 1]; CfgOf(kvs[..|kvs| - 1])[(kv.key, kv.version) := kv]
  }

  /** LoadSnapshot starts from an emptied database, so nothing of the old store remains. */
  function Load(data: SnapshotData): State {
    State(MainOf(data.kvs), HistOf(data.kvs), CfgOf(data.cfgKvs), data.revision, data.revision)
  }

  /** What ExportSnapshot writes out: every current record and every published
      version, each once, and the revision of the same database snapshot. */
  ghost predicate Exports(data: SnapshotData, s: State) {
    && data.revision == s.revision
    && (forall kv :: kv in data.kvs <==> kv.key in s.main && s.main[kv.key] == kv)
    && (forall kv :: kv in data.cfgKvs <==>
          (kv.key, kv.version) in s.cfg && s.cfg[(kv.key, kv.version)] == kv)
  }

  // ------------------------------------------------------------ invariant

  ghost predicate MainOK(s: State, k: string)
    requires k in s.main
  {
    var kv := s.main[k];
    && kv.key == k
    && 1 <= kv.version <= kv.revision <= s.revision
    && kv.revision in s.hist && s.hist[kv.revision] == kv
  }

  ghost predicate HistOK(s: State, r: nat)
    requires r in s.hist
  {
    var kv := s.hist[r];
    && kv.revision == r
    && 1 <= kv.version <= r <= s.revision
    && kv.key in s.main
    && r <= s.main[kv.key].revision
    && kv.version <= s.main[kv.key].version
  }

  ghost predicate CfgOK(s: State, p: (string, nat))
    requires p in s.cfg
  {
    var kv := s.cfg[p];
    && (kv.key, kv.version) == p
    && !kv.deleted
    && 1 <= kv.version <= kv.revision <= s.revision
    && kv.key in s.main
    && kv.version <= s.main[kv.key].version
    && (forall r :: r in s.hist && s.hist[r].key == p.0 && s.hist[r].version == p.1 ==> s.hist[r] == kv)
  }

  /** Every reachable state: the main index points at each key's newest record,
      the history is dense above compactRev, a published version is written once. */
  ghost predicate Inv(s: State) {
    && s.compactRev <= s.revision
    && (forall k :: k in s.main ==> MainOK(s, k))
    && (forall r :: r in s.hist ==> HistOK(s, r))
    && (forall r :: s.compactRev < r <= s.revision ==> r in s.hist)
    && (forall p :: p in s.cfg ==> CfgOK(s, p))
  }

  /** Records that may be written next: consecutive revisions, versions that do
      not step back and are new to the version index. */
  ghost predicate Admissible(s: State, kv: KV) {
    && kv.revision == s.revision + 1
    && 1 <= kv.version <= kv.revision
    && (kv.key in s.main ==> s.main[kv.key].version <= kv.version)
    && (forall p :: p in s.cfg && p.0 == kv.key ==> p.1 < kv.version)
  }

  lemma WriteKeepsMain(s: State, kv: KV, k: string)
    requires Inv(s) && Admissible(s, kv) && k in Write(s, kv).main
    ensures MainOK(Write(s, kv), k)
  {
    if k != kv.key { assert MainOK(s, k); }
  }

  lemma WriteKeepsHist(s: State, kv: KV, r: nat)
    requires Inv(s) && Admissible(s, kv) && r in Write(s, kv).hist
    ensures HistOK(Write(s, kv), r)
  {
    if r != kv.revision {
      assert HistOK(s, r);
      assert MainOK(s, s.hist[r].key);
    }
  }

  lemma WriteKeepsCfg(s: State, kv: KV, p: (string, nat))
    requires Inv(s) && Admissible(s, kv) && p in s.cfg
    ensures CfgOK(Write(s, kv), p)
  {
    assert CfgOK(s, p);
  }

  lemma WriteKeepsInv(s: State, kv: KV)
    requires Inv(s) && Admissible(s, kv)
    ensures Inv(Write(s, kv))
  {
    var t := Write(s, kv);
    forall k | k in t.main ensures MainOK(t, k) { WriteKeepsMain(s, kv, k); }
    forall r | r in t.hist ensures HistOK(t, r) { WriteKeepsHist(s, kv, r); }
    forall p | p in t.cfg ensures CfgOK(t, p) { WriteKeepsCfg(s, kv, p); }
  }

  lemma IndexKeepsInv(s: State, kv: KV)
    requires Inv(s) && kv.key in s.main && s.main[kv.key] == kv && !kv.deleted
    requires forall r :: r in s.hist && s.hist[r].key == kv.key && s.hist[r].version == kv.version ==>
               s.hist[r] == kv
    ensures Inv(Index(s, kv))
  {
    var t := Index(s, kv);
    assert MainOK(s, kv.key);
    forall k | k in t.main ensures MainOK(t, k) { assert MainOK(s, k); }
    forall r | r in t.hist ensures HistOK(t, r) { assert HistOK(s, r); }
    forall p | p in t.cfg ensures CfgOK(t, p) {
      if p != (kv.key, kv.version) { assert CfgOK(s, p); }
    }
  }

  /** The records of a batch, each admissible after the ones before it. */
  ghost predicate Chain(s: State, recs: seq<KV>) {
    forall i :: 0 <= i < |recs| ==> Link(s, recs[i], i)
  }

  ghost predicate Link(s: State, kv: KV, i: nat) {
    && kv.revision == s.revision + 1 + i
    && kv.version == NextVersion(s, kv.key)
  }

  lemma DecideChain(s: State, cmd: RaftCmd)
    requires Decide(s, cmd).Accept?
    ensures var d := Decide(s, cmd);
            Chain(s, d.recs) && (d.publish ==> |d.recs| == 1 && !d.recs[0].deleted)
  {
  }

  lemma {:induction false} ChainPrefix(s: State, recs: seq<KV>)
    requires Chain(s, recs) && recs != []
    ensures Chain(s, recs[..|recs| - 1]) && Link(s, recs[|recs| - 1], |recs| - 1)
  {
    var pre := recs[..|recs| - 1];
    forall i | 0 <= i < |pre| ensures Link(s, pre[i], i) {
      assert Link(s, recs[i], i);
    }
  }

  lemma {:induction false} WriteAllCounters(s: State, recs: seq<KV>)
    requires Chain(s, recs)
    ensures var t := WriteAll(s, recs);
            t.revision == s.revision + |recs| && t.cfg == s.cfg && t.compactRev == s.compactRev
  {
    if recs == [] {
    } else {
      ChainPrefix(s, recs);
      WriteAllCounters(s, recs[..|recs| - 1]);
    }
  }

  /** A batch files its records under the next revisions and disturbs no other. */
  lemma {:induction false} WriteAllHist(s: State, recs: seq<KV>, r: nat)
    requires Chain(s, recs)
    ensures var t := WriteAll(s, recs);
            if s.revision < r <= s.revision + |recs|
            then r in t.hist && t.hist[r] == recs[r - s.revision - 1]
            else (r in t.hist <==> r in s.hist) && (r in s.hist ==> t.hist[r] == s.hist[r])
  {
    if recs == [] {
    } else {
      ChainPrefix(s, recs);
      WriteAllHist(s, recs[..|recs| - 1], r);
    }
  }

  /** A key's current record is the old one or the batch's last one for it. */
  lemma {:induction false} WriteAllMain(s: State, recs: seq<KV>, k: string)
    requires Chain(s, recs)
    ensures var t := WriteAll(s, recs);
            && (k in s.main ==> k in t.main)
            && (k in t.main ==>
                 || (k in s.main && t.main[k] == s.main[k])
                 || (t.main[k].key == k && exists i :: 0 <= i < |recs| && recs[i] == t.main[k]))
  {
    if recs == [] {
    } else {
      ChainPrefix(s, recs);
      var pre := recs[..|recs| - 1];
      WriteAllMain(s, pre, k);
      var t, u := WriteAll(s, recs), WriteAll(s, pre);
      if k == recs[|recs| - 1].key {
        assert t.main[k] == recs[|recs| - 1];
      } else if k in u.main && !(k in s.main && u.main[k] == s.main[k]) {
        var i :| 0 <= i < |pre| && pre[i] == u.main[k];
        assert recs[i] == t.main[k];
      }
    }
  }

  lemma {:induction false} WriteAllInv(s: State, recs: seq<KV>)
    requires Inv(s) && Chain(s, recs)
    ensures Inv(WriteAll(s, recs))
  {
    if recs == [] {
    } else {
      var pre, kv := recs[..|recs| - 1], recs[|recs| - 1];
      ChainPrefix(s, recs);
      WriteAllInv(s, pre);
      WriteAllCounters(s, pre);
      WriteAllMain(s, pre, kv.key);
      var t := WriteAll(s, pre);
      assert kv.key in s.main ==> MainOK(s, kv.key);
      forall p | p in t.cfg && p.0 == kv.key ensures p.1 < kv.version { assert CfgOK(s, p); }
      if kv.key in t.main && !(kv.key in s.main && t.main[kv.key] == s.main[kv.key]) {
        var j :| 0 <= j < |pre| && pre[j] == t.main[kv.key];
        assert Link(s, pre[j], j);
      }
      WriteKeepsInv(t, kv);
    }
  }

  lemma SingleWrite(s: State, kv: KV)
    ensures WriteAll(s, [kv]) == Write(s, kv)
  {
    assert [kv][..0] == [];
    assert WriteAll(s, []) == s;
  }

  /** A record that is also filed in the version index. */
  lemma PublishKeepsInv(s: State, kv: KV)
    requires Inv(s) && Link(s, kv, 0) && !kv.deleted && Inv(Write(s, kv))
    ensures Inv(Index(Write(s, kv), kv))
  {
    forall r | r in s.hist ensures s.hist[r].key == kv.key ==> s.hist[r].version < kv.version {
      assert HistOK(s, r);
    }
    IndexKeepsInv(Write(s, kv), kv);
  }

  lemma ApplyKeepsInv(s: State, cmd: RaftCmd, writeOk: bool)
    requires Inv(s)
    ensures Inv(Apply(s, cmd, writeOk).0)
  {
    var d := Decide(s, cmd);
    if d.Accept? && (d.recs == [] || writeOk) {
      DecideChain(s, cmd);
      WriteAllInv(s, d.recs);
      if d.publish {
        assert d.recs == [d.recs[0]] && Link(s, d.recs[0], 0);
        SingleWrite(s, d.recs[0]);
        PublishKeepsInv(s, d.recs[0]);
      }
    }
  }
}
