/** The ordered byte map under the store: atomic batches, pinned iterators, and
    what its five key shapes mean (src/common/storekey.h, src/store/store.cpp). */
module LevelDb {
  import opened Records
  import opened Mvcc
  import opened StoreKey

  /** A stored value: an 8-byte counter or a serialized record (serialization and
      parsing are taken to be inverse). */
  datatype Cell = Counter(bytes: seq<Byte>) | Record(kv: KV)

  type Db = map<string, Cell>

  datatype Op = PutOp(shape: Shape, cell: Cell) | DeleteOp(shape: Shape)

  datatype Entry = Entry(key: string, cell: Cell)

  type Typed = map<Shape, Cell>

  // ------------------------------------------------------ bytes to shapes

  /** The byte map holds exactly the encodings of the typed cells. */
  ghost predicate Encodes(db: Db, t: Typed) {
    && (forall sh :: sh in t ==> sh.Valid() && KeyOf(sh) in db && db[KeyOf(sh)] == t[sh])
    && (forall x :: x in db ==> exists sh :: sh in t && sh.Valid() && KeyOf(sh) == x)
  }

  lemma Lookup(db: Db, t: Typed, sh: Shape)
    requires Encodes(db, t) && sh.Valid()
    ensures KeyOf(sh) in db <==> sh in t
    ensures sh in t ==> db[KeyOf(sh)] == t[sh]
  {
    if KeyOf(sh) in db {
      var other :| other in t && other.Valid() && KeyOf(other) == KeyOf(sh);
      KeyInjective(sh, other);
    }
  }

  /** A put or a delete of one key is the same put or delete of one shape. */
  lemma PutEncodes(db: Db, t: Typed, sh: Shape, c: Cell)
    requires Encodes(db, t) && sh.Valid()
    ensures Encodes(db[KeyOf(sh) := c], t[sh := c])
  {
    var db', t' := db[KeyOf(sh) := c], t[sh := c];
    forall o | o in t' ensures o.Valid() && KeyOf(o) in db' && db'[KeyOf(o)] == t'[o] {
      if o != sh && KeyOf(o) == KeyOf(sh) { KeyInjective(o, sh); }
    }
    forall x | x in db' ensures exists o :: o in t' && o.Valid() && KeyOf(o) == x {
      if x == KeyOf(sh) {
        assert sh in t';
      } else {
        var o :| o in t && o.Valid() && KeyOf(o) == x;
        assert o in t';
      }
    }
  }

  lemma DeleteEncodes(db: Db, t: Typed, sh: Shape)
    requires Encodes(db, t) && sh.Valid()
    ensures Encodes(db - {KeyOf(sh)}, t - {sh})
  {
    var db', t' := db - {KeyOf(sh)}, t - {sh};
    forall o | o in t' ensures o.Valid() && KeyOf(o) in db' && db'[KeyOf(o)] == t'[o] {
      if KeyOf(o) == KeyOf(sh) { KeyInjective(o, sh); }
    }
    forall x | x in db' ensures exists o :: o in t' && o.Valid() && KeyOf(o) == x {
      var o :| o in t && o.Valid() && KeyOf(o) == x;
      assert o in t';
    }
  }

  function ApplyOp(t: Typed, op: Op): Typed {
    match op
    case PutOp(sh, c) => t[sh := c]
    case DeleteOp(sh) => t - {sh}
  }

  function ApplyOps(t: Typed, ops: seq<Op>): Typed {
    if ops == [] then t else ApplyOp(ApplyOps(t, ops[..|ops| - 1]), ops[|ops| - 1])
  }

  lemma {:induction false} ApplyOpsConcat(t: Typed, a: seq<Op>, b: seq<Op>)
    ensures ApplyOps(t, a + b) == ApplyOps(ApplyOps(t, a), b)
  {
    if b == [] {
      assert a + b == a;
    } else {
      assert (a + b)[..|a + b| - 1] == a + b[..|b| - 1];
      ApplyOpsConcat(t, a, b[..|b| - 1]);
    }
  }

  lemma ApplyTwo(t: Typed, a: Op, b: Op)
    ensures ApplyOps(t, [a, b]) == ApplyOp(ApplyOp(t, a), b)
  {
    assert [a, b][..1] == [a] && [a][..0] == [];
    assert ApplyOps(t, [a]) == ApplyOp(ApplyOps(t, []), a);
  }

  /** The write batch: all operations in order, or nothing. */
  method WriteBatch(db: Db, ghost t: Typed, ops: seq<Op>, ok: bool) returns (db': Db)
    requires Encodes(db, t) && forall i :: 0 <= i < |ops| ==> ops[i].shape.Valid()
    ensures Encodes(db', if ok then ApplyOps(t, ops) else t)
    ensures !ok ==> db' == db
  {
    db' := db;
    if !ok {
      return;
    }
    var i := 0;
    while i < |ops|
      invariant 0 <= i <= |ops|
      invariant Encodes(db', ApplyOps(t, ops[..i]))
    {
      assert ops[..i + 1][..i] == ops[..i];
      ghost var u := ApplyOps(t, ops[..i]);
      match ops[i] {
        case PutOp(sh, c) =>
          PutEncodes(db', u, sh, c);
          db' := db'[KeyOf(sh) := c];
        case DeleteOp(sh) =>
          DeleteEncodes(db', u, sh);
          db' := db' - {KeyOf(sh)};
      }
      i := i + 1;
    }
    assert ops[..i] == ops;
  }

  // ------------------------------------------------------ shapes to meaning

  predicate Present(s: State, sh: Shape) {
    match sh
    case RevisionMeta => s.revision > 0
    case CompactMeta => s.compactRev > 0
    case Main(k) => k in s.main
    case Version(r, k) => r in s.hist && s.hist[r].key == k
    case Config(k, v) => (k, v) in s.cfg
  }

  function Content(s: State, sh: Shape): Cell
    requires Present(s, sh)
  {
    match sh
    case RevisionMeta => Counter(Uint64(s.revision))
    case CompactMeta => Counter(Uint64(s.compactRev))
    case Main(k) => Record(s.main[k])
    case Version(r, _) => Record(s.hist[r])
    case Config(k, v) => Record(s.cfg[(k, v)])
  }

  ghost predicate Means(t: Typed, s: State) {
    forall sh :: (sh in t <==> Present(s, sh)) && (sh in t ==> t[sh] == Content(s, sh))
  }

  function RecordOps(kv: KV): seq<Op> {
    [PutOp(Main(kv.key), Record(kv)), PutOp(Version(kv.revision, kv.key), Record(kv))]
  }

  function RevisionOp(rev: nat): Op { PutOp(RevisionMeta, Counter(Uint64(rev))) }

  /** Main index, history and counter of one write, as one abstract write. */
  lemma WriteMeans(t: Typed, s: State, kv: KV)
    requires Means(t, s) && kv.revision !in s.hist && kv.revision > 0
    ensures Means(ApplyOp(ApplyOps(t, RecordOps(kv)), RevisionOp(kv.revision)), Write(s, kv))
  {
    ApplyTwo(t, PutOp(Main(kv.key), Record(kv)), PutOp(Version(kv.revision, kv.key), Record(kv)));
    var t', s' := ApplyOp(ApplyOps(t, RecordOps(kv)), RevisionOp(kv.revision)), Write(s, kv);
    forall sh ensures (sh in t' <==> Present(s', sh)) && (sh in t' ==> t'[sh] == Content(s', sh)) {
      assert (sh in t <==> Present(s, sh)) && (sh in t ==> t[sh] == Content(s, sh));
    }
  }

  lemma IndexMeans(t: Typed, s: State, kv: KV)
    requires Means(t, s)
    ensures Means(t[Config(kv.key, kv.version) := Record(kv)], Index(s, kv))
  {
    var t', s' := t[Config(kv.key, kv.version) := Record(kv)], Index(s, kv);
    forall sh ensures (sh in t' <==> Present(s', sh)) && (sh in t' ==> t'[sh] == Content(s', sh)) {
      assert (sh in t <==> Present(s, sh)) && (sh in t ==> t[sh] == Content(s, sh));
    }
  }

  function BatchOps(recs: seq<KV>): seq<Op> {
    if recs == [] then [] else BatchOps(recs[..|recs| - 1]) + RecordOps(recs[|recs| - 1])
  }

  lemma FreshRevision(s: State, r: nat)
    requires Inv(s) && r > s.revision
    ensures r !in s.hist
  {
    assert r in s.hist ==> HistOK(s, r);
  }

  /** The counter at the end of a batch covers all of it. */
  lemma {:induction false} BatchMeans(t: Typed, s: State, recs: seq<KV>)
    requires Means(t, s) && Inv(s) && Chain(s, recs) && recs != []
    ensures Means(ApplyOp(ApplyOps(t, BatchOps(recs)), RevisionOp(s.revision + |recs|)), WriteAll(s, recs))
  {
    var pre, kv := recs[..|recs| - 1], recs[|recs| - 1];
    ChainPrefix(s, recs);
    WriteAllCounters(s, pre);
    WriteAllHist(s, pre, kv.revision);
    FreshRevision(s, kv.revision);
    var u := ApplyOps(t, BatchOps(pre));
    ApplyOpsConcat(t, BatchOps(pre), RecordOps(kv));
    if pre == [] {
      assert u == t;
      WriteMeans(t, s, kv);
    } else {
      BatchMeans(t, s, pre);
      var c := RevisionOp(s.revision + |pre|);
      WriteMeans(ApplyOp(u, c), WriteAll(s, pre), kv);
      CounterLast(u, c, kv);
    }
  }

  lemma CounterLast(u: Typed, c: Op, kv: KV)
    requires c.PutOp? && c.shape == RevisionMeta
    ensures ApplyOp(ApplyOps(ApplyOp(u, c), RecordOps(kv)), RevisionOp(kv.revision)) ==
            ApplyOp(ApplyOps(u, RecordOps(kv)), RevisionOp(kv.revision))
  {
    var a, b := PutOp(Main(kv.key), Record(kv)), PutOp(Version(kv.revision, kv.key), Record(kv));
    ApplyTwo(u, a, b);
    ApplyTwo(ApplyOp(u, c), a, b);
  }

  // -------------------------------------------------------------- iterators

  ghost predicate Sorted(it: seq<Entry>) {
    forall i, j :: 0 <= i < j < |it| ==> LexLess(it[i].key, it[j].key)
  }

  /** What a pinned iterator walks over: all entries of one database state. */
  ghost predicate Listing(it: seq<Entry>, db: Db) {
    && Sorted(it)
    && (forall i :: 0 <= i < |it| ==> it[i].key in db && db[it[i].key] == it[i].cell)
    && (forall x :: x in db ==> exists i :: 0 <= i < |it| && it[i].key == x)
  }

  /** Position of the first entry not below the target. */
  method Seek(it: seq<Entry>, target: string) returns (i: nat)
    requires Sorted(it)
    ensures i <= |it|
    ensures forall j :: 0 <= j < i ==> LexLess(it[j].key, target)
    ensures forall j :: i <= j < |it| ==> !LexLess(it[j].key, target)
  {
    i := 0;
    while i < |it| && LexLess(it[i].key, target)
      invariant i <= |it|
      invariant forall j :: 0 <= j < i ==> LexLess(it[j].key, target)
    {
      i := i + 1;
    }
    if i < |it| {
      forall j | i < j < |it| ensures !LexLess(it[j].key, target) {
        if LexLess(it[j].key, target) { LexTransitive(it[i].key, it[j].key, target); }
      }
    }
  }

  /** Seek stops at the target if it is there. */
  lemma SeekFinds(it: seq<Entry>, target: string, i: nat, j: nat)
    requires Sorted(it) && j < |it| && it[j].key == target && i <= |it|
    requires forall k :: 0 <= k < i ==> LexLess(it[k].key, target)
    requires forall k :: i <= k < |it| ==> !LexLess(it[k].key, target)
    ensures i == j
  {
    LexTrichotomy(target, target);
    var stop := it[if i < |it| then i else j].key;
  }

  lemma InsertSorted(it: seq<Entry>, i: nat, e: Entry)
    requires Sorted(it) && i <= |it|
    requires forall j :: 0 <= j < i ==> LexLess(it[j].key, e.key)
    requires forall j :: i <= j < |it| ==> LexLess(e.key, it[j].key)
    ensures Sorted(it[..i] + [e] + it[i..])
  {
    var it' := it[..i] + [e] + it[i..];
    forall a, b | 0 <= a < b < |it'| ensures LexLess(it'[a].key, it'[b].key) {
    }
  }

  lemma InsertFinds(it: seq<Entry>, i: nat, e: Entry, y: string)
    requires i <= |it| && (y == e.key || exists j :: 0 <= j < |it| && it[j].key == y)
    ensures exists j :: 0 <= j <= |it| && (it[..i] + [e] + it[i..])[j].key == y
  {
    var it' := it[..i] + [e] + it[i..];
    if y == e.key {
      assert it'[i].key == y;
    } else {
      var j :| 0 <= j < |it| && it[j].key == y;
      assert it'[if j < i then j else j + 1].key == y;
    }
  }

  method NewIterator(db: Db) returns (it: seq<Entry>)
    ensures Listing(it, db)
  {
    it := [];
    var todo := db.Keys;
    while todo != {}
      invariant todo <= db.Keys && Sorted(it)
      invariant forall i :: 0 <= i < |it| ==>
        it[i].key in db && it[i].key !in todo && db[it[i].key] == it[i].cell
      invariant forall x :: x in db && x !in todo ==> exists i :: 0 <= i < |it| && it[i].key == x
      decreases |todo|
    {
      var x :| x in todo;
      var i := Seek(it, x);
      forall j | i <= j < |it| ensures LexLess(x, it[j].key) {
        LexTrichotomy(x, it[j].key);
      }
      InsertSorted(it, i, Entry(x, db[x]));
      forall y | y in db && (y == x || y !in todo)
        ensures exists j :: 0 <= j <= |it| && (it[..i] + [Entry(x, db[x])] + it[i..])[j].key == y
      {
        InsertFinds(it, i, Entry(x, db[x]), y);
      }
      it := it[..i] + [Entry(x, db[x])] + it[i..];
      todo := todo - {x};
    }
  }

  /** An iterator with the shape of every entry. */
  ghost predicate Shaped(it: seq<Entry>, shapes: seq<Shape>, t: Typed) {
    && Sorted(it) && |shapes| == |it|
    && (forall i :: 0 <= i < |it| ==>
          shapes[i] in t && shapes[i].Valid() && KeyOf(shapes[i]) == it[i].key && it[i].cell == t[shapes[i]])
    && (forall sh :: sh in t ==> exists i :: 0 <= i < |it| && shapes[i] == sh)
  }

  ghost predicate IsKey(t: Typed, x: string) {
    exists sh :: sh in t && sh.Valid() && KeyOf(sh) == x
  }

  ghost function ShapeOf(t: Typed, x: string): (sh: Shape)
    requires IsKey(t, x)
    ensures sh in t && sh.Valid() && KeyOf(sh) == x
  {
    var sh :| sh in t && sh.Valid() && KeyOf(sh) == x; sh
  }

  ghost function Shapes(it: seq<Entry>, t: Typed): (shapes: seq<Shape>)
    requires forall i :: 0 <= i < |it| ==> IsKey(t, it[i].key)
    ensures |shapes| == |it|
    ensures forall i :: 0 <= i < |it| ==> shapes[i] in t && shapes[i].Valid() && KeyOf(shapes[i]) == it[i].key
  {
    seq(|it|, i requires 0 <= i < |it| => ShapeOf(t, it[i].key))
  }

  lemma ShapeListing(it: seq<Entry>, db: Db, t: Typed) returns (shapes: seq<Shape>)
    requires Listing(it, db) && Encodes(db, t)
    ensures Shaped(it, shapes, t)
  {
    forall i | 0 <= i < |it| ensures IsKey(t, it[i].key) {}
    shapes := Shapes(it, t);
    forall sh | sh in t ensures exists i :: 0 <= i < |it| && shapes[i] == sh {
      var i := ShapeAt(it, db, t, shapes, sh);
    }
  }

  lemma ShapeAt(it: seq<Entry>, db: Db, t: Typed, shapes: seq<Shape>, sh: Shape) returns (i: nat)
    requires Listing(it, db) && Encodes(db, t) && sh in t && |shapes| == |it|
    requires forall k :: 0 <= k < |it| ==> shapes[k] in t && shapes[k].Valid() && KeyOf(shapes[k]) == it[k].key
    ensures i < |it| && shapes[i] == sh
  {
    i :| 0 <= i < |it| && it[i].key == KeyOf(sh);
    KeyInjective(shapes[i], sh);
  }

  /** A scan that leaves the `p` block has seen all of it. */
  lemma BlockEnds(it: seq<Entry>, p: string, i: nat, j: nat)
    requires Sorted(it) && i <= j < |it|
    requires !LexLess(it[i].key, p) && !StartsWith(it[i].key, p)
    ensures !StartsWith(it[j].key, p)
  {
    if StartsWith(it[j].key, p) {
      PrefixBlock(p, it[i].key, it[j].key);
      LexTrichotomy(it[i].key, it[j].key);
    }
  }
}
