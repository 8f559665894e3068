/** Compaction, snapshot export and snapshot load over the byte map
    (src/store/store.cpp). */
module Maintenance {
  import opened Records
  import opened Mvcc
  import opened History
  import opened Replication
  import opened StoreKey
  import opened LevelDb
  import opened Scans

  // ------------------------------------------------- collecting per key

  type PerKey = map<string, seq<(nat, nat)>>

  function RecordsFor(per: PerKey, key: string): seq<(nat, nat)> {
    if key in per then per[key] else []
  }

  /** (revision, version) of a key's records up to hi, oldest first. */
  function RecordsOf(hist: map<nat, KV>, key: string, hi: nat): seq<(nat, nat)> {
    if hi == 0 then []
    else RecordsOf(hist, key, hi - 1) + if hi in hist && hist[hi].key == key then [(hi, hist[hi].version)] else []
  }

  lemma {:induction false} RecordsGap(hist: map<nat, KV>, key: string, a: nat, b: nat)
    requires a <= b && NoneIn(hist, a, b)
    ensures RecordsOf(hist, key, b) == RecordsOf(hist, key, a)
  {
    if a >= b {
    } else {
      RecordsGap(hist, key, a, b - 1);
    }
  }

  lemma {:induction false} RecordsListed(hist: map<nat, KV>, key: string, hi: nat, i: nat)
    requires i < |RecordsOf(hist, key, hi)|
    ensures var (r, v) := RecordsOf(hist, key, hi)[i];
            && 1 <= r <= hi && r in hist && hist[r].key == key && hist[r].version == v
            && Newer(hist, key, r, hi) == |RecordsOf(hist, key, hi)| - 1 - i
  {
    if i < |RecordsOf(hist, key, hi - 1)| {
      RecordsListed(hist, key, hi - 1, i);
    }
  }

  lemma {:induction false} RecordIndex(hist: map<nat, KV>, key: string, hi: nat, r: nat) returns (i: nat)
    requires 1 <= r <= hi && r in hist && hist[r].key == key
    ensures i < |RecordsOf(hist, key, hi)| && RecordsOf(hist, key, hi)[i].0 == r
  {
    if r == hi {
      i := |RecordsOf(hist, key, hi)| - 1;
    } else {
      i := RecordIndex(hist, key, hi - 1, r);
    }
  }

  lemma {:induction false} RecordsAscend(hist: map<nat, KV>, key: string, hi: nat, i: nat, j: nat)
    requires i < j < |RecordsOf(hist, key, hi)|
    ensures RecordsOf(hist, key, hi)[i].0 < RecordsOf(hist, key, hi)[j].0
  {
    RecordsListed(hist, key, hi, i);
    if j < |RecordsOf(hist, key, hi - 1)| {
      RecordsAscend(hist, key, hi - 1, i, j);
    } else if i < |RecordsOf(hist, key, hi - 1)| {
      RecordsListed(hist, key, hi - 1, i);
    }
  }

  ghost predicate Collected(per: PerKey, hist: map<nat, KV>, hi: nat) {
    forall k :: RecordsFor(per, k) == RecordsOf(hist, k, hi)
  }

  lemma CollectStep(per: PerKey, hist: map<nat, KV>, hi: nat, rev: nat)
    requires Collected(per, hist, hi) && hi < rev && rev in hist && NoneIn(hist, hi, rev - 1)
    ensures Collected(per[hist[rev].key := RecordsFor(per, hist[rev].key) + [(rev, hist[rev].version)]], hist, rev)
  {
    var per' := per[hist[rev].key := RecordsFor(per, hist[rev].key) + [(rev, hist[rev].version)]];
    forall k ensures RecordsFor(per', k) == RecordsOf(hist, k, rev) {
      RecordsGap(hist, k, hi, rev - 1);
      assert RecordsFor(per, k) == RecordsOf(hist, k, hi);
    }
  }

  /** First phase, first half: walk the `v/` block and group by key. */
  method CollectScan(it: seq<Entry>, ghost shapes: seq<Shape>, ghost t: Typed, ghost s: State) returns (per: PerKey)
    requires Scans.Pinned(it, shapes, t, s)
    ensures Collected(per, s.hist, s.revision)
  {
    per := map[];
    var i := Seek(it, "v/");
    ghost var hi: nat := 0;
    BlockStart(it, shapes, t, s, i);
    while i < |it| && StartsWith(it[i].key, "v/")
      invariant 0 <= i <= |it| && hi <= s.revision && Frontier(shapes, i, hi)
      invariant forall j :: i <= j < |it| ==> !LexLess(it[j].key, "v/")
      invariant Collected(per, s.hist, hi)
    {
      VersionAt(it, shapes, t, s, i);
      FrontierGap(it, shapes, t, s, i, hi);
      FrontierMoves(it, shapes, t, s, i, hi);
      var rev := DecodeOrd(it[i].key[2..18]).value;
      var key := it[i].key[19..];
      CollectStep(per, s.hist, hi, rev);
      per := per[key := RecordsFor(per, key) + [(rev, it[i].cell.kv.version)]];
      hi := rev;
      i := i + 1;
    }
    FrontierEnd(it, shapes, t, s, i, hi, s.revision);
    forall k ensures RecordsFor(per, k) == RecordsOf(s.hist, k, s.revision) {
      RecordsGap(s.hist, k, hi, s.revision);
      assert RecordsFor(per, k) == RecordsOf(s.hist, k, hi);
    }
  }

  lemma BlockStart(it: seq<Entry>, shapes: seq<Shape>, t: Typed, s: State, i: nat)
    requires Scans.Pinned(it, shapes, t, s) && i <= |it|
    requires forall j :: 0 <= j < i ==> LexLess(it[j].key, "v/")
    ensures Frontier(shapes, i, 0)
  {
    forall j | 0 <= j < |it| && shapes[j].Version? ensures i <= j && shapes[j].rev > 0 {
      VersionAt(it, shapes, t, s, j);
      PrefixBlock("v/", "", it[j].key);
    }
  }

  // -------------------------------------------------------------- marking

  datatype Deletion = Deletion(rev: nat, key: string, ver: nat)

  /** The list of deletions is the victim map, each victim once. */
  ghost predicate Lists(dels: seq<Deletion>, victims: map<nat, KV>) {
    if dels == [] then victims == map[]
    else
      var d := dels[|dels| - 1];
      && d.rev in victims && victims[d.rev].key == d.key && victims[d.rev].version == d.ver
      && Lists(dels[..|dels| - 1], victims - {d.rev})
  }

  lemma {:induction false} ListsSound(dels: seq<Deletion>, victims: map<nat, KV>)
    requires Lists(dels, victims)
    ensures |dels| == |victims|
    ensures forall i :: 0 <= i < |dels| ==>
              && dels[i].rev in victims && victims[dels[i].rev].key == dels[i].key
              && victims[dels[i].rev].version == dels[i].ver
  {
    if dels == [] {
    } else {
      var r := dels[|dels| - 1].rev;
      ListsSound(dels[..|dels| - 1], victims - {r});
      assert victims.Keys == (victims - {r}).Keys + {r};
      assert |victims| == |victims - {r}| + 1;
    }
  }

  lemma {:induction false} RevIndex(dels: seq<Deletion>, victims: map<nat, KV>, r: nat) returns (i: nat)
    requires Lists(dels, victims) && r in victims
    ensures i < |dels| && dels[i].rev == r
  {
    if dels[|dels| - 1].rev == r {
      i := |dels| - 1;
    } else {
      i := RevIndex(dels[..|dels| - 1], victims - {dels[|dels| - 1].rev}, r);
    }
  }

  function TopRev(dels: seq<Deletion>): nat {
    if dels == [] then 0 else Max(TopRev(dels[..|dels| - 1]), dels[|dels| - 1].rev)
  }

  lemma {:induction false} TopIsMax(dels: seq<Deletion>, victims: map<nat, KV>)
    requires Lists(dels, victims) && dels != []
    ensures IsMax(TopRev(dels), victims.Keys)
  {
    var pre, r := dels[..|dels| - 1], dels[|dels| - 1].rev;
    if pre == [] {
    } else {
      TopIsMax(pre, victims - {r});
    }
    assert victims.Keys == (victims - {r}).Keys + {r};
  }

  lemma {:induction false} ListOne(dels: seq<Deletion>, marked: map<nat, KV>, r: nat, kv: KV)
    requires Lists(dels, marked) && r !in marked
    ensures Lists(dels + [Deletion(r, kv.key, kv.version)], marked[r := kv])
    ensures TopRev(dels + [Deletion(r, kv.key, kv.version)]) == Max(TopRev(dels), r)
  {
    var dels' := dels + [Deletion(r, kv.key, kv.version)];
    assert dels'[..|dels'| - 1] == dels && marked[r := kv] - {r} == marked;
  }

  ghost predicate InRange(s: State) {
    forall r :: r in s.hist ==> 1 <= r <= s.revision
  }

  ghost predicate IsVictim(s: State, keep: int, r: nat) {
    r in s.hist && Newer(s.hist, s.hist[r].key, r, s.revision) >= Keep(keep)
  }

  /** Marked so far: the victims of finished keys, and of the current key those
      below a revision. */
  ghost function Marked(s: State, keep: int, done: set<string>, key: string, bound: nat): map<nat, KV> {
    map r | r in s.hist && IsVictim(s, keep, r) && (s.hist[r].key in done || (s.hist[r].key == key && r < bound))
      :: s.hist[r]
  }

  lemma NoneBetweenRecords(s: State, key: string, i: nat, q: nat)
    requires InRange(s) && i + 1 < |RecordsOf(s.hist, key, s.revision)| && q in s.hist && s.hist[q].key == key
    ensures q < RecordsOf(s.hist, key, s.revision)[i + 1].0 <==> q <= RecordsOf(s.hist, key, s.revision)[i].0
  {
    RecordsAscend(s.hist, key, s.revision, i, i + 1);
    var j := RecordIndex(s.hist, key, s.revision, q);
    if j > i + 1 { RecordsAscend(s.hist, key, s.revision, i + 1, j); }
    if j < i { RecordsAscend(s.hist, key, s.revision, j, i); }
  }

  lemma MarkNext(s: State, keep: int, done: set<string>, key: string, i: nat, r: nat, next: nat)
    requires InRange(s) && key !in done
    requires i + Keep(keep) < |RecordsOf(s.hist, key, s.revision)|
    requires r == RecordsOf(s.hist, key, s.revision)[i].0 && next == RecordsOf(s.hist, key, s.revision)[i + 1].0
    ensures r > 0 && r in s.hist && s.hist[r].key == key
    ensures s.hist[r].version == RecordsOf(s.hist, key, s.revision)[i].1
    ensures r !in Marked(s, keep, done, key, r)
    ensures Marked(s, keep, done, key, next) == Marked(s, keep, done, key, r)[r := s.hist[r]]
  {
    RecordsListed(s.hist, key, s.revision, i);
    assert IsVictim(s, keep, r);
    forall q: nat | q in s.hist && s.hist[q].key == key ensures q < next <==> q <= r {
      NoneBetweenRecords(s, key, i, q);
    }
  }

  /** All of a key's victims come before the first record that is kept. */
  lemma MarkedKey(s: State, keep: int, done: set<string>, key: string, list: seq<(nat, nat)>, bound: nat)
    requires InRange(s) && list == RecordsOf(s.hist, key, s.revision) && |list| > Keep(keep)
    requires bound == list[|list| - Keep(keep)].0
    ensures Marked(s, keep, done + {key}, key, 0) == Marked(s, keep, done, key, bound)
  {
    forall q: nat | IsVictim(s, keep, q) && s.hist[q].key == key ensures q < bound {
      var j := RecordIndex(s.hist, key, s.revision, q);
      RecordsListed(s.hist, key, s.revision, j);
      RecordsAscend(s.hist, key, s.revision, j, |list| - Keep(keep));
    }
  }

  lemma NothingToMark(s: State, keep: int, done: set<string>, key: string)
    requires InRange(s) && |RecordsOf(s.hist, key, s.revision)| <= Keep(keep)
    ensures Marked(s, keep, done + {key}, key, 0) == Marked(s, keep, done, key, 0)
  {
    forall q: nat | q in s.hist && s.hist[q].key == key ensures !IsVictim(s, keep, q) {
      var j := RecordIndex(s.hist, key, s.revision, q);
      RecordsListed(s.hist, key, s.revision, j);
    }
  }

  lemma {:induction false} MarkOne(s: State, keep: int, done: set<string>, key: string, n: nat, rev: nat, ver: nat, next: nat,
                dels: seq<Deletion>, more: seq<Deletion>)
    requires InRange(s) && key !in done && more == dels + [Deletion(rev, key, ver)] && n + Keep(keep) < |RecordsOf(s.hist, key, s.revision)|
    requires (rev, ver) == RecordsOf(s.hist, key, s.revision)[n] && next == RecordsOf(s.hist, key, s.revision)[n + 1].0
    requires Lists(dels, Marked(s, keep, done, key, rev))
    ensures Lists(more, Marked(s, keep, done, key, next))
    ensures TopRev(more) == Max(TopRev(dels), rev)
  {
    MarkNext(s, keep, done, key, n, rev, next);
    ListOne(dels, Marked(s, keep, done, key, rev), rev, s.hist[rev]);
  }

  /** First phase, second half for one key: its oldest records beyond max(n,1). */
  method MarkKey(list: seq<(nat, nat)>, key: string, keep: int, dels0: seq<Deletion>, top0: nat,
                 ghost s: State, ghost done: set<string>)
    returns (dels: seq<Deletion>, top: nat)
    requires InRange(s) && key !in done && list == RecordsOf(s.hist, key, s.revision)
    requires Lists(dels0, Marked(s, keep, done, key, 0)) && top0 == TopRev(dels0)
    ensures Lists(dels, Marked(s, keep, done + {key}, key, 0)) && top == TopRev(dels)
    ensures var most := if keep < 1 then 1 else keep;
            |dels| - |dels0| == if |list| <= most then 0 else |list| - most
  {
    dels, top := dels0, top0;
    var excess := |list| - (if keep < 1 then 1 else keep);
    if excess <= 0 {
      NothingToMark(s, keep, done, key);
      return;
    }
    MarkFirst(s, keep, done, key);
    dels, top := MarkOldest(list, key, keep, excess, dels, top, s, done);
    MarkedKey(s, keep, done, key, list, list[excess].0);
  }

  /** The loop over the records to delete. */
  method MarkOldest(list: seq<(nat, nat)>, key: string, keep: int, excess: nat, dels0: seq<Deletion>, top0: nat,
                    ghost s: State, ghost done: set<string>)
    returns (dels: seq<Deletion>, top: nat)
    requires InRange(s) && key !in done && list == RecordsOf(s.hist, key, s.revision)
    requires excess + Keep(keep) <= |list|
    requires Lists(dels0, Marked(s, keep, done, key, list[0].0)) && top0 == TopRev(dels0)
    ensures Lists(dels, Marked(s, keep, done, key, list[excess].0)) && top == TopRev(dels)
    ensures |dels| == |dels0| + excess
  {
    dels, top := dels0, top0;
    var i := 0;
    while i < excess
      invariant 0 <= i <= excess && |dels| == |dels0| + i
      invariant Lists(dels, Marked(s, keep, done, key, list[i].0)) && top == TopRev(dels)
    {
      var (rev, ver) := list[i];
      var more := dels + [Deletion(rev, key, ver)];
      MarkOne(s, keep, done, key, i, rev, ver, list[i + 1].0, dels, more);
      dels := more;
      top := if rev > top then rev else top;
      i := i + 1;
    }
  }

  lemma MarkFirst(s: State, keep: int, done: set<string>, key: string)
    requires InRange(s) && RecordsOf(s.hist, key, s.revision) != []
    ensures Marked(s, keep, done, key, RecordsOf(s.hist, key, s.revision)[0].0) == Marked(s, keep, done, key, 0)
  {
    forall q: nat | q in s.hist && s.hist[q].key == key ensures q >= RecordsOf(s.hist, key, s.revision)[0].0 {
      var j := RecordIndex(s.hist, key, s.revision, q);
      if j > 0 { RecordsAscend(s.hist, key, s.revision, 0, j); }
    }
  }

  /** First phase: what a compaction that keeps `keep` versions will delete. */
  method MarkAll(per: PerKey, keep: int, ghost s: State) returns (dels: seq<Deletion>, top: nat)
    requires InRange(s) && Collected(per, s.hist, s.revision)
    ensures Lists(dels, Victims(s, keep)) && top == TopRev(dels)
    ensures forall r: nat :: (exists d :: d in dels && d.rev == r) <==>
              r in s.hist && Newer(s.hist, s.hist[r].key, r, s.revision) >= if keep < 1 then 1 else keep
    ensures forall d :: d in dels ==>
              d.rev in s.hist && s.hist[d.rev].key == d.key && s.hist[d.rev].version == d.ver
  {
    dels, top := [], 0;
    ghost var done: set<string> := {};
    var todo := per.Keys;
    while todo != {}
      invariant todo <= per.Keys && done == per.Keys - todo
      invariant Lists(dels, Marked(s, keep, done, "", 0)) && top == TopRev(dels)
      decreases |todo|
    {
      var key :| key in todo;
      assert RecordsFor(per, key) == RecordsOf(s.hist, key, s.revision);
      AnyKey(s, keep, done, key);
      dels, top := MarkKey(per[key], key, keep, dels, top, s, done);
      AnyKey(s, keep, done + {key}, key);
      done := done + {key};
      todo := todo - {key};
    }
    assert done == per.Keys;
    AllMarked(per, s, keep);
    ListsExactly(dels, s, keep);
  }

  /** A list of the victims holds each record with at least max(n,1) newer ones. */
  lemma ListsExactly(dels: seq<Deletion>, s: State, keep: int)
    requires Lists(dels, Victims(s, keep))
    ensures forall r: nat :: (exists d :: d in dels && d.rev == r) <==>
              r in s.hist && Newer(s.hist, s.hist[r].key, r, s.revision) >= if keep < 1 then 1 else keep
    ensures forall d :: d in dels ==>
              d.rev in s.hist && s.hist[d.rev].key == d.key && s.hist[d.rev].version == d.ver
  {
    var v := Victims(s, keep);
    ListsSound(dels, v);
    forall r: nat | r in v ensures exists d :: d in dels && d.rev == r {
      var i := RevIndex(dels, v, r);
      assert dels[i] in dels;
    }
    forall d | d in dels ensures d.rev in v && v[d.rev].key == d.key && v[d.rev].version == d.ver {
      var i :| 0 <= i < |dels| && dels[i] == d;
    }
    forall r: nat
      ensures r in v <==> r in s.hist && Newer(s.hist, s.hist[r].key, r, s.revision) >= if keep < 1 then 1 else keep
    {
    }
    forall r: nat ensures (exists d :: d in dels && d.rev == r) <==> r in v {
      if r in v { assert exists d :: d in dels && d.rev == r; }
    }
  }

  lemma AnyKey(s: State, keep: int, done: set<string>, key: string)
    ensures Marked(s, keep, done, "", 0) == Marked(s, keep, done, key, 0)
  {
  }

  lemma AllMarked(per: PerKey, s: State, keep: int)
    requires InRange(s) && Collected(per, s.hist, s.revision)
    ensures Marked(s, keep, per.Keys, "", 0) == Victims(s, keep)
  {
    forall q: nat | IsVictim(s, keep, q) ensures s.hist[q].key in per {
      var j := RecordIndex(s.hist, s.hist[q].key, s.revision, q);
      assert RecordsFor(per, s.hist[q].key) == RecordsOf(s.hist, s.hist[q].key, s.revision);
    }
  }

  // -------------------------------------------------------------- erasing

  function DeleteOps(dels: seq<Deletion>): seq<Op> {
    if dels == [] then []
    else
      var d := dels[|dels| - 1];
      DeleteOps(dels[..|dels| - 1]) + [DeleteOp(Version(d.rev, d.key)), DeleteOp(Config(d.key, d.ver))]
  }

  predicate Deletes(d: Deletion, sh: Shape) {
    sh == Version(d.rev, d.key) || sh == Config(d.key, d.ver)
  }

  lemma {:induction false} DeleteEffect(t: Typed, dels: seq<Deletion>, sh: Shape)
    ensures var t' := ApplyOps(t, DeleteOps(dels));
            && (sh in t' <==> sh in t && !exists i :: 0 <= i < |dels| && Deletes(dels[i], sh))
            && (sh in t' ==> t'[sh] == t[sh])
  {
    if dels == [] {
    } else {
      var pre, d := dels[..|dels| - 1], dels[|dels| - 1];
      DeleteEffect(t, pre, sh);
      var a, b := DeleteOp(Version(d.rev, d.key)), DeleteOp(Config(d.key, d.ver));
      ApplyOpsConcat(t, DeleteOps(pre), [a, b]);
      ApplyTwo(ApplyOps(t, DeleteOps(pre)), a, b);
      assert (exists i :: 0 <= i < |dels| && Deletes(dels[i], sh)) <==>
             Deletes(d, sh) || exists i :: 0 <= i < |pre| && Deletes(pre[i], sh) by {
        if i :| 0 <= i < |pre| && Deletes(pre[i], sh) { assert Deletes(dels[i], sh); }
        if Deletes(d, sh) { assert Deletes(dels[|dels| - 1], sh); }
      }
    }
  }

  /** Second phase: the batch of deletions and the new compact_rev mean the
      abstract compaction, also when commands ran since the scan. */
  lemma {:induction false} EraseMeans(t: Typed, s: State, dels: seq<Deletion>, victims: map<nat, KV>)
    requires Means(t, s) && Superseded(s, victims) && Lists(dels, victims) && victims != map[]
    ensures Means(ApplyOps(t, DeleteOps(dels))
                    [CompactMeta := Counter(Uint64(Max(s.compactRev, MaxOf(victims.Keys))))],
                  Compact(s, victims))
  {
    var u, s' := ApplyOps(t, DeleteOps(dels)), Compact(s, victims);
    var t' := u[CompactMeta := Counter(Uint64(Max(s.compactRev, MaxOf(victims.Keys))))];
    assert MaxOf(victims.Keys) in victims;
    forall sh ensures (sh in t' <==> Present(s', sh)) && (sh in t' ==> t'[sh] == Content(s', sh)) {
      assert (sh in t <==> Present(s, sh)) && (sh in t ==> t[sh] == Content(s, sh));
      DeleteEffect(t, dels, sh);
      if Present(s, sh) { ErasedShape(s, dels, victims, sh); }
    }
  }

  lemma {:induction false} ErasedShape(s: State, dels: seq<Deletion>, victims: map<nat, KV>, sh: Shape)
    requires Superseded(s, victims) && Lists(dels, victims) && Present(s, sh)
    ensures (exists i :: 0 <= i < |dels| && Deletes(dels[i], sh)) <==>
            match sh
            case Version(r, _) => r in victims
            case Config(k, v) => (k, v) in VersionsOf(victims)
            case _ => false
  {
    ListsSound(dels, victims);
    match sh
    case Version(r, k) =>
      if r in victims {
        var i := RevIndex(dels, victims, r);
        assert Deletes(dels[i], sh);
      }
    case Config(k, v) =>
      if (k, v) in VersionsOf(victims) {
        var r :| r in victims && (victims[r].key, victims[r].version) == (k, v);
        var i := RevIndex(dels, victims, r);
        assert Deletes(dels[i], sh);
      }
      if i :| 0 <= i < |dels| && Deletes(dels[i], sh) {
        assert dels[i].rev in victims;
        assert (victims[dels[i].rev].key, victims[dels[i].rev].version) == (k, v);
      }
    case _ =>
  }

  // -------------------------------------------------------------- export

  /** One prefix block of an export: exactly the records stored under it. */
  method ExportScan(it: seq<Entry>, p: string) returns (kvs: seq<KV>)
    requires Sorted(it) && forall j :: 0 <= j < |it| && StartsWith(it[j].key, p) ==> it[j].cell.Record?
    ensures forall kv :: kv in kvs <==>
              exists j :: 0 <= j < |it| && StartsWith(it[j].key, p) && it[j].cell == Record(kv)
  {
    kvs := [];
    var i := Seek(it, p);
    ghost var first := i;
    while i < |it| && StartsWith(it[i].key, p)
      invariant first <= i <= |it| && |kvs| == i - first
      invariant forall j :: first <= j < i ==> StartsWith(it[j].key, p) && it[j].cell == Record(kvs[j - first])
    {
      kvs := kvs + [it[i].cell.kv];
      i := i + 1;
    }
    forall j | 0 <= j < |it| && StartsWith(it[j].key, p) ensures first <= j < i {
      if j < first { PrefixBlock(p, "", it[j].key); }
      if i <= j { BlockEnds(it, p, i, j); }
    }
    forall kv | kv in kvs
      ensures exists j :: 0 <= j < |it| && StartsWith(it[j].key, p) && it[j].cell == Record(kv)
    {
      var n :| 0 <= n < |kvs| && kvs[n] == kv;
      assert it[first + n].cell == Record(kv);
    }
    forall j | 0 <= j < |it| && StartsWith(it[j].key, p) ensures it[j].cell.kv in kvs {
      assert kvs[j - first] == it[j].cell.kv;
    }
  }

  lemma MainBlock(it: seq<Entry>, shapes: seq<Shape>, t: Typed, s: State, j: nat)
    requires Scans.Pinned(it, shapes, t, s) && j < |it|
    ensures StartsWith(it[j].key, "k/") <==> shapes[j].Main?
    ensures shapes[j].Main? ==> shapes[j].key in s.main && it[j].cell == Record(s.main[shapes[j].key])
                                && s.main[shapes[j].key].key == shapes[j].key
  {
    KeyTag(shapes[j]);
    assert Present(s, shapes[j]);
    if shapes[j].Main? { assert MainOK(s, shapes[j].key); }
  }

  lemma ConfigBlock(it: seq<Entry>, shapes: seq<Shape>, t: Typed, s: State, j: nat)
    requires Scans.Pinned(it, shapes, t, s) && j < |it|
    ensures StartsWith(it[j].key, "cfg/") <==> shapes[j].Config?
    ensures shapes[j].Config? ==>
              (shapes[j].key, shapes[j].ver) in s.cfg && it[j].cell == Record(s.cfg[(shapes[j].key, shapes[j].ver)])
              && (it[j].cell.kv.key, it[j].cell.kv.version) == (shapes[j].key, shapes[j].ver)
  {
    KeyTag(shapes[j]);
    assert Present(s, shapes[j]);
    if shapes[j].Config? { assert CfgOK(s, (shapes[j].key, shapes[j].ver)); }
  }

  method ExportMain(it: seq<Entry>, ghost shapes: seq<Shape>, ghost t: Typed, ghost s: State) returns (kvs: seq<KV>)
    requires Scans.Pinned(it, shapes, t, s)
    ensures forall kv :: kv in kvs <==> kv.key in s.main && s.main[kv.key] == kv
  {
    forall j | 0 <= j < |it| ensures StartsWith(it[j].key, "k/") ==> it[j].cell.Record? { MainBlock(it, shapes, t, s, j); }
    kvs := ExportScan(it, "k/");
    forall kv ensures kv in kvs <==> kv.key in s.main && s.main[kv.key] == kv {
      if kv in kvs {
        var j :| 0 <= j < |it| && StartsWith(it[j].key, "k/") && it[j].cell == Record(kv);
        MainBlock(it, shapes, t, s, j);
      }
      if kv.key in s.main && s.main[kv.key] == kv {
        assert Present(s, Main(kv.key));
        var j :| 0 <= j < |it| && shapes[j] == Main(kv.key);
        MainBlock(it, shapes, t, s, j);
      }
    }
  }

  method ExportConfig(it: seq<Entry>, ghost shapes: seq<Shape>, ghost t: Typed, ghost s: State) returns (kvs: seq<KV>)
    requires Scans.Pinned(it, shapes, t, s)
    ensures forall kv :: kv in kvs <==> (kv.key, kv.version) in s.cfg && s.cfg[(kv.key, kv.version)] == kv
  {
    forall j | 0 <= j < |it| ensures StartsWith(it[j].key, "cfg/") ==> it[j].cell.Record? { ConfigBlock(it, shapes, t, s, j); }
    kvs := ExportScan(it, "cfg/");
    forall kv ensures kv in kvs <==> (kv.key, kv.version) in s.cfg && s.cfg[(kv.key, kv.version)] == kv {
      if kv in kvs {
        var j :| 0 <= j < |it| && StartsWith(it[j].key, "cfg/") && it[j].cell == Record(kv);
        ConfigBlock(it, shapes, t, s, j);
      }
      if (kv.key, kv.version) in s.cfg && s.cfg[(kv.key, kv.version)] == kv {
        var j := ConfigPosition(it, shapes, t, s, kv.key, kv.version);
        ConfigBlock(it, shapes, t, s, j);
      }
    }
  }

  /** The revision of an export is sought on the pinned iterator, like its data. */
  method ExportRevision(it: seq<Entry>, ghost shapes: seq<Shape>, ghost t: Typed, ghost s: State) returns (rev: nat)
    requires Scans.Pinned(it, shapes, t, s)
    ensures rev == s.revision
  {
    var i := Seek(it, RevisionMetaKey());
    if i < |it| && it[i].key == RevisionMetaKey() {
      KeyInjective(shapes[i], RevisionMeta);
      assert Present(s, RevisionMeta);
      rev := DecodeUint64(it[i].cell.bytes);
      Uint64RoundTrip(s.revision);
    } else {
      rev := 0;
      if s.revision > 0 {
        ghost var j := RevisionAt(it, shapes, t, s);
        SeekFinds(it, RevisionMetaKey(), i, j);
      }
    }
  }

  lemma RevisionAt(it: seq<Entry>, shapes: seq<Shape>, t: Typed, s: State) returns (j: nat)
    requires Scans.Pinned(it, shapes, t, s) && s.revision > 0
    ensures j < |it| && it[j].key == RevisionMetaKey()
  {
    assert Present(s, RevisionMeta);
    j :| 0 <= j < |it| && shapes[j] == RevisionMeta;
  }

  // ---------------------------------------------------------------- load

  /** Records of a snapshot: a revision belongs to one record. */
  ghost predicate OneEach(kvs: seq<KV>) {
    forall i, j :: 0 <= i < |kvs| && 0 <= j < |kvs| && kvs[i].revision == kvs[j].revision ==> kvs[i] == kvs[j]
  }

  function ConfigOps(kvs: seq<KV>): (ops: seq<Op>)
    ensures |ops| == |kvs|
    ensures forall i :: 0 <= i < |kvs| ==> ops[i] == PutOp(Config(kvs[i].key, kvs[i].version), Record(kvs[i]))
  {
    seq(|kvs|, i requires 0 <= i < |kvs| => PutOp(Config(kvs[i].key, kvs[i].version), Record(kvs[i])))
  }

  lemma {:induction false} LoadRecordsMean(kvs: seq<KV>)
    requires OneEach(kvs)
    ensures Means(ApplyOps(map[], BatchOps(kvs)), State(MainOf(kvs), HistOf(kvs), map[], 0, 0))
  {
    if kvs == [] {
    } else {
      var pre, kv := kvs[..|kvs| - 1], kvs[|kvs| - 1];
      LoadRecordsMean(pre);
      HistOfFacts(pre, kv.revision);
      var t := ApplyOps(map[], BatchOps(pre));
      ApplyOpsConcat(map[], BatchOps(pre), RecordOps(kv));
      ApplyTwo(t, PutOp(Main(kv.key), Record(kv)), PutOp(Version(kv.revision, kv.key), Record(kv)));
      var s := State(MainOf(pre), HistOf(pre), map[], 0, 0);
      var s' := State(MainOf(kvs), HistOf(kvs), map[], 0, 0);
      var t' := ApplyOps(map[], BatchOps(kvs));
      forall sh ensures (sh in t' <==> Present(s', sh)) && (sh in t' ==> t'[sh] == Content(s', sh)) {
        assert (sh in t <==> Present(s, sh)) && (sh in t ==> t[sh] == Content(s, sh));
      }
    }
  }

  lemma {:induction false} LoadConfigsMean(t: Typed, s: State, kvs: seq<KV>)
    requires Means(t, s) && s.cfg == map[]
    ensures Means(ApplyOps(t, ConfigOps(kvs)), s.(cfg := CfgOf(kvs)))
  {
    if kvs == [] {
      assert ConfigOps(kvs) == [];
    } else {
      var pre, kv := kvs[..|kvs| - 1], kvs[|kvs| - 1];
      LoadConfigsMean(t, s, pre);
      assert ConfigOps(kvs)[..|kvs| - 1] == ConfigOps(pre);
      IndexMeans(ApplyOps(t, ConfigOps(pre)), s.(cfg := CfgOf(pre)), kv);
    }
  }

  function CounterOps(rev: nat): seq<Op> {
    if rev > 0 then [RevisionOp(rev), PutOp(CompactMeta, Counter(Uint64(rev)))] else []
  }

  lemma LoadCountersMean(t: Typed, s: State, rev: nat)
    requires Means(t, s) && s.revision == 0 && s.compactRev == 0
    ensures Means(ApplyOps(t, CounterOps(rev)), s.(revision := rev, compactRev := rev))
  {
    if rev > 0 {
      ApplyTwo(t, RevisionOp(rev), PutOp(CompactMeta, Counter(Uint64(rev))));
      var t', s' := ApplyOps(t, CounterOps(rev)), s.(revision := rev, compactRev := rev);
      forall sh ensures (sh in t' <==> Present(s', sh)) && (sh in t' ==> t'[sh] == Content(s', sh)) {
        assert (sh in t <==> Present(s, sh)) && (sh in t ==> t[sh] == Content(s, sh));
      }
    }
  }

  function LoadOps(data: SnapshotData): seq<Op> {
    BatchOps(data.kvs) + ConfigOps(data.cfgKvs) + CounterOps(data.revision)
  }

  /** The load batch, on an emptied database, means the loaded state. */
  lemma LoadMeans(data: SnapshotData)
    requires OneEach(data.kvs)
    ensures Means(ApplyOps(map[], LoadOps(data)), Load(data))
  {
    var a, b, c := BatchOps(data.kvs), ConfigOps(data.cfgKvs), CounterOps(data.revision);
    LoadRecordsMean(data.kvs);
    ApplyOpsConcat(map[], a, b);
    ApplyOpsConcat(map[], a + b, c);
    var s := State(MainOf(data.kvs), HistOf(data.kvs), map[], 0, 0);
    LoadConfigsMean(ApplyOps(map[], a), s, data.cfgKvs);
    LoadCountersMean(ApplyOps(map[], a + b), s.(cfg := CfgOf(data.cfgKvs)), data.revision);
  }

  lemma ExportedOneEach(data: SnapshotData, s: State)
    requires Inv(s) && Exports(data, s)
    ensures OneEach(data.kvs)
  {
    forall i, j | 0 <= i < |data.kvs| && 0 <= j < |data.kvs| && data.kvs[i].revision == data.kvs[j].revision
      ensures data.kvs[i] == data.kvs[j]
    {
      assert data.kvs[i] in data.kvs && data.kvs[j] in data.kvs;
      assert MainOK(s, data.kvs[i].key) && MainOK(s, data.kvs[j].key);
    }
  }

  lemma {:induction false} BatchOpsValid(kvs: seq<KV>)
    requires forall i :: 0 <= i < |kvs| ==> kvs[i].revision < TWO_63
    ensures forall i :: 0 <= i < |BatchOps(kvs)| ==> BatchOps(kvs)[i].shape.Valid()
  {
    if kvs == [] {
    } else {
      BatchOpsValid(kvs[..|kvs| - 1]);
    }
  }

  /** Revisions and versions are int64. */
  predicate Int64(data: SnapshotData) {
    && data.revision < TWO_63
    && (forall i :: 0 <= i < |data.kvs| ==> data.kvs[i].revision < TWO_63)
    && (forall i :: 0 <= i < |data.cfgKvs| ==> data.cfgKvs[i].version < TWO_63)
  }

  lemma LoadOpsValid(data: SnapshotData)
    requires Int64(data)
    ensures forall i :: 0 <= i < |LoadOps(data)| ==> LoadOps(data)[i].shape.Valid()
  {
    BatchOpsValid(data.kvs);
  }

  lemma ExportedInt64(data: SnapshotData, s: State)
    requires Inv(s) && Exports(data, s) && s.revision < TWO_63
    ensures Int64(data)
  {
    forall i | 0 <= i < |data.kvs| ensures data.kvs[i].revision < TWO_63 {
      assert data.kvs[i] in data.kvs;
      assert MainOK(s, data.kvs[i].key);
    }
    forall i | 0 <= i < |data.cfgKvs| ensures data.cfgKvs[i].version < TWO_63 {
      assert data.cfgKvs[i] in data.cfgKvs;
      assert CfgOK(s, (data.cfgKvs[i].key, data.cfgKvs[i].version));
    }
  }
}
