/** Seek-and-scan reads over a pinned iterator, each proved equal to the plain
    query on the abstract state it was pinned at (src/store/store.cpp). */
module Scans {
  import opened Records
  import opened Mvcc
  import opened StoreKey
  import opened LevelDb

  /** An iterator pinned over a database that means s. */
  ghost predicate Pinned(it: seq<Entry>, shapes: seq<Shape>, t: Typed, s: State) {
    Shaped(it, shapes, t) && Means(t, s) && Inv(s) && s.revision < TWO_63
  }

  // ----------------------------------------------------- the history block

  lemma VersionAt(it: seq<Entry>, shapes: seq<Shape>, t: Typed, s: State, i: nat)
    requires Pinned(it, shapes, t, s) && i < |it|
    ensures StartsWith(it[i].key, "v/") <==> shapes[i].Version?
    ensures shapes[i].Version? ==>
              && shapes[i].rev in s.hist && it[i].cell == Record(s.hist[shapes[i].rev])
              && s.hist[shapes[i].rev].key == shapes[i].key
              && 1 <= shapes[i].rev <= s.revision
              && |it[i].key| >= 19 && it[i].key[2..18] == EncodeOrd(shapes[i].rev)
              && it[i].key[19..] == shapes[i].key
              && DecodeOrd(it[i].key[2..18]) == Parsed.Parsed(shapes[i].rev)
  {
    KeyTag(shapes[i]);
    if shapes[i].Version? {
      assert Present(s, shapes[i]) && HistOK(s, shapes[i].rev);
      VersionParts(shapes[i].rev, shapes[i].key);
      DecodeEncodeOrd(shapes[i].rev);
    }
  }

  /** Byte order of the scan is revision order. */
  lemma VersionsAscend(it: seq<Entry>, shapes: seq<Shape>, t: Typed, s: State, i: nat, j: nat)
    requires Pinned(it, shapes, t, s) && i < j < |it| && shapes[i].Version? && shapes[j].Version?
    ensures shapes[i].rev < shapes[j].rev
  {
    assert Present(s, shapes[i]) && Present(s, shapes[j]);
    LexTrichotomy(it[i].key, it[j].key);
    VersionOrder(shapes[j].rev, shapes[j].key, shapes[i].rev, shapes[i].key);
  }

  /** Position i separates revisions up to hi from later ones. */
  ghost predicate Frontier(shapes: seq<Shape>, i: nat, hi: nat) {
    && (forall j :: 0 <= j < i && j < |shapes| && shapes[j].Version? ==> shapes[j].rev <= hi)
    && (forall j :: i <= j < |shapes| && shapes[j].Version? ==> shapes[j].rev > hi)
  }

  ghost predicate NoneIn(hist: map<nat, KV>, lo: nat, hi: nat) {
    forall r :: lo < r <= hi ==> r !in hist
  }

  lemma PositionOf(it: seq<Entry>, shapes: seq<Shape>, t: Typed, s: State, r: nat) returns (j: nat)
    requires Pinned(it, shapes, t, s) && r in s.hist
    ensures j < |it| && shapes[j] == Version(r, s.hist[r].key)
  {
    assert Present(s, Version(r, s.hist[r].key));
    j :| 0 <= j < |it| && shapes[j] == Version(r, s.hist[r].key);
  }

  lemma NotBetween(it: seq<Entry>, shapes: seq<Shape>, t: Typed, s: State, i: nat, hi: nat, r: nat)
    requires Pinned(it, shapes, t, s) && i < |it| && Frontier(shapes, i, hi) && shapes[i].Version?
    requires hi < r < shapes[i].rev
    ensures r !in s.hist
  {
    if r in s.hist {
      var j := PositionOf(it, shapes, t, s, r);
      if i < j { VersionsAscend(it, shapes, t, s, i, j); }
    }
  }

  /** Between the frontier and the next entry there is no record. */
  lemma FrontierGap(it: seq<Entry>, shapes: seq<Shape>, t: Typed, s: State, i: nat, hi: nat)
    requires Pinned(it, shapes, t, s) && i < |it| && Frontier(shapes, i, hi) && shapes[i].Version?
    ensures NoneIn(s.hist, hi, shapes[i].rev - 1)
  {
    forall r | hi < r <= shapes[i].rev - 1 ensures r !in s.hist {
      NotBetween(it, shapes, t, s, i, hi, r);
    }
  }

  lemma VersionsBeyond(it: seq<Entry>, shapes: seq<Shape>, t: Typed, s: State, i: nat)
    requires Pinned(it, shapes, t, s) && i < |it| && shapes[i].Version?
    ensures forall j :: i < j < |shapes| && shapes[j].Version? ==> shapes[j].rev > shapes[i].rev
  {
    forall j | i < j < |shapes| && shapes[j].Version? ensures shapes[j].rev > shapes[i].rev {
      VersionsAscend(it, shapes, t, s, i, j);
    }
  }

  lemma FrontierMoves(it: seq<Entry>, shapes: seq<Shape>, t: Typed, s: State, i: nat, hi: nat)
    requires Pinned(it, shapes, t, s) && i < |it| && Frontier(shapes, i, hi) && shapes[i].Version?
    ensures Frontier(shapes, i + 1, shapes[i].rev)
  {
    VersionsBeyond(it, shapes, t, s, i);
  }

  /** When the `v/` block ends, so does the history. */
  lemma FrontierEnd(it: seq<Entry>, shapes: seq<Shape>, t: Typed, s: State, i: nat, hi: nat, top: nat)
    requires Pinned(it, shapes, t, s) && i <= |it| && Frontier(shapes, i, hi)
    requires i < |it| ==> !StartsWith(it[i].key, "v/") && !LexLess(it[i].key, "v/")
    ensures NoneIn(s.hist, hi, top)
  {
    forall r | hi < r <= top ensures r !in s.hist {
      if r in s.hist {
        var j := PositionOf(it, shapes, t, s, r);
        VersionAt(it, shapes, t, s, j);
        if i <= j { BlockEnds(it, "v/", i, j); }
      }
    }
  }

  lemma SeekFrontier(it: seq<Entry>, shapes: seq<Shape>, t: Typed, s: State, i: nat, from: nat)
    requires Pinned(it, shapes, t, s) && i <= |it| && from + 1 < TWO_63
    requires forall j :: 0 <= j < i ==> LexLess(it[j].key, VersionKey(from + 1, ""))
    requires forall j :: i <= j < |it| ==> !LexLess(it[j].key, VersionKey(from + 1, ""))
    ensures Frontier(shapes, i, from)
    ensures forall j :: i <= j < |it| ==> !LexLess(it[j].key, "v/")
  {
    var target := VersionKey(from + 1, "");
    forall j | 0 <= j < |it| && shapes[j].Version? ensures if j < i then shapes[j].rev <= from else shapes[j].rev > from {
      VersionOrder(from + 1, "", shapes[j].rev, shapes[j].key);
      VersionOrder(shapes[j].rev, shapes[j].key, from + 1, "");
    }
    forall j | i <= j < |it| ensures !LexLess(it[j].key, "v/") {
      BelowBlock(it[j].key, from + 1);
    }
  }

  lemma BelowBlock(x: string, r: nat)
    requires r < TWO_63 && !LexLess(x, VersionKey(r, ""))
    ensures !LexLess(x, "v/")
  {
    if LexLess(x, "v/") {
      VersionParts(r, "");
      PrefixBlock("v/", x, VersionKey(r, ""));
      LexTrichotomy("v/", VersionKey(r, ""));
      if "v/" != VersionKey(r, "") { LexTransitive(x, "v/", VersionKey(r, "")); }
    }
  }

  // --------------------------------------------------------------- replay

  lemma {:induction false} EventsGap(hist: map<nat, KV>, lo: nat, a: nat, b: nat, filter: string)
    requires lo <= a <= b && NoneIn(hist, a, b)
    ensures EventsIn(hist, lo, b, filter) == EventsIn(hist, lo, a, filter)
  {
    if a >= b {
    } else {
      EventsGap(hist, lo, a, b - 1, filter);
    }
  }

  lemma {:induction false} EventsPrefix(hist: map<nat, KV>, lo: nat, a: nat, b: nat, filter: string)
    requires lo <= a <= b
    ensures EventsIn(hist, lo, a, filter) <= EventsIn(hist, lo, b, filter)
  {
    if a >= b {
    } else {
      EventsPrefix(hist, lo, a, b - 1, filter);
    }
  }

  /** Up to the next record a replay has nothing to add. */
  lemma EventsAcross(hist: map<nat, KV>, from: nat, hi: nat, rev: nat, cur: nat, filter: string)
    requires from <= hi < rev && hi <= cur && NoneIn(hist, hi, rev - 1) && rev in hist
    ensures rev > cur ==> EventsIn(hist, from, cur, filter) == EventsIn(hist, from, hi, filter)
    ensures EventsIn(hist, from, rev, filter) ==
            EventsIn(hist, from, hi, filter) +
            if filter == "" || hist[rev].key == filter then [ReplayedEvent(rev, hist[rev])] else []
  {
    if rev > cur { EventsGap(hist, from, hi, cur, filter); }
    EventsGap(hist, from, hi, rev - 1, filter);
  }

  /** What one entry of the `v/` block adds to a replay. */
  lemma ReplayStep(it: seq<Entry>, shapes: seq<Shape>, t: Typed, s: State, i: nat, hi: nat,
                   from: nat, cur: nat, filter: string)
    returns (rev: nat)
    requires Pinned(it, shapes, t, s) && i < |it| && Frontier(shapes, i, hi) && from <= hi <= cur
    requires StartsWith(it[i].key, "v/")
    ensures |it[i].key| >= 19 && it[i].cell.Record? && forall k :: 0 <= k < 16 ==> IsHexDigit(it[i].key[2..18][k])
    ensures DecodeOrd(it[i].key[2..18]) == Parsed.Parsed(rev) && Frontier(shapes, i + 1, rev) && hi < rev
    ensures rev > cur ==> EventsIn(s.hist, from, cur, filter) == EventsIn(s.hist, from, hi, filter)
    ensures EventsIn(s.hist, from, rev, filter) ==
            EventsIn(s.hist, from, hi, filter) +
            if filter == "" || it[i].cell.kv.key == filter then [ReplayedEvent(rev, it[i].cell.kv)] else []
  {
    VersionAt(it, shapes, t, s, i);
    FrontierGap(it, shapes, t, s, i, hi);
    FrontierMoves(it, shapes, t, s, i, hi);
    rev := shapes[i].rev;
    EventsAcross(s.hist, from, hi, rev, cur, filter);
  }

  lemma CutAt<T>(out: seq<T>, all: seq<T>, max: nat)
    requires out <= all && |out| == max
    ensures out == Cut(all, max)
  {
  }

  /** The scan of ReplayEvents: from the first record above `from`, in byte order,
      until the block ends, `cur` is passed or `max` events are found. */
  method ReplayScan(it: seq<Entry>, ghost shapes: seq<Shape>, ghost t: Typed, ghost s: State,
                    from: nat, cur: nat, filter: string, max: nat)
    returns (out: seq<WatchEvent>)
    requires Pinned(it, shapes, t, s) && from < cur < TWO_63 && max > 0
    ensures out == Cut(EventsIn(s.hist, from, cur, filter), max)
  {
    out := [];
    var i := Seek(it, VersionKey(from + 1, ""));
    SeekFrontier(it, shapes, t, s, i, from);
    ghost var hi: nat := from;
    while i < |it| && StartsWith(it[i].key, "v/")
      invariant 0 <= i <= |it| && from <= hi <= cur && Frontier(shapes, i, hi)
      invariant forall j :: i <= j < |it| ==> !LexLess(it[j].key, "v/")
      invariant out == EventsIn(s.hist, from, hi, filter) && |out| < max
    {
      ghost var next := ReplayStep(it, shapes, t, s, i, hi, from, cur, filter);
      var rev := DecodeOrd(it[i].key[2..18]).value;
      if rev > cur {
        return;
      }
      var kv := it[i].cell.kv;
      hi := next;
      i := i + 1;
      if filter == "" || kv.key == filter {
        out := out + [ReplayedEvent(rev, kv)];
        if |out| >= max {
          EventsPrefix(s.hist, from, hi, cur, filter);
          CutAt(out, EventsIn(s.hist, from, cur, filter), max);
          return;
        }
      }
    }
    FrontierEnd(it, shapes, t, s, i, hi, cur);
    EventsGap(s.hist, from, hi, cur, filter);
  }

  // ----------------------------------------------------- version history

  /** Published versions of a key up to `hi`, ascending. */
  function Published(cfg: map<(string, nat), KV>, key: string, hi: nat): seq<KV> {
    if hi == 0 then []
    else Published(cfg, key, hi - 1) + if (key, hi) in cfg && !cfg[(key, hi)].deleted then [cfg[(key, hi)]] else []
  }

  lemma {:induction false} PublishedGap(cfg: map<(string, nat), KV>, key: string, a: nat, b: nat)
    requires a <= b && forall v :: a < v <= b ==> (key, v) !in cfg
    ensures Published(cfg, key, b) == Published(cfg, key, a)
  {
    if a >= b {
    } else {
      PublishedGap(cfg, key, a, b - 1);
    }
  }

  function ConfigPrefix(key: string): string { "cfg/" + key + "/" }

  predicate Of(sh: Shape, key: string) { sh.Config? && sh.key == key }

  ghost predicate ConfigFrontier(shapes: seq<Shape>, key: string, i: nat, hi: nat) {
    && (forall j :: 0 <= j < i && j < |shapes| && Of(shapes[j], key) ==> shapes[j].ver <= hi)
    && (forall j :: i <= j < |shapes| && Of(shapes[j], key) ==> shapes[j].ver > hi)
  }

  lemma ConfigAt(it: seq<Entry>, shapes: seq<Shape>, t: Typed, s: State, key: string, i: nat)
    requires Pinned(it, shapes, t, s) && i < |it|
    ensures Of(shapes[i], key) ==> StartsWith(it[i].key, ConfigPrefix(key))
    ensures StartsWith(it[i].key, ConfigPrefix(key)) ==> shapes[i].Config?
    ensures shapes[i].Config? ==>
              && (shapes[i].key, shapes[i].ver) in s.cfg
              && it[i].cell == Record(s.cfg[(shapes[i].key, shapes[i].ver)])
              && it[i].cell.kv.key == shapes[i].key && !it[i].cell.kv.deleted
              && 1 <= shapes[i].ver <= s.revision
  {
    KeyTag(shapes[i]);
    if shapes[i].Config? {
      ConfigParts(shapes[i].key, shapes[i].ver);
      assert Present(s, shapes[i]) && CfgOK(s, (shapes[i].key, shapes[i].ver));
    }
    if StartsWith(it[i].key, ConfigPrefix(key)) {
      assert it[i].key[..4] == it[i].key[..|ConfigPrefix(key)|][..4] == "cfg/";
    }
  }

  lemma ConfigsAscend(it: seq<Entry>, shapes: seq<Shape>, t: Typed, s: State, key: string, i: nat, j: nat)
    requires Pinned(it, shapes, t, s) && i < j < |it| && Of(shapes[i], key) && Of(shapes[j], key)
    ensures shapes[i].ver < shapes[j].ver
  {
    assert LexLess(it[i].key, it[j].key);
    ConfigOrder(key, shapes[i].ver, shapes[j].ver);
  }

  lemma ConfigAdvance(it: seq<Entry>, shapes: seq<Shape>, t: Typed, s: State, key: string, i: nat, hi: nat)
    requires Pinned(it, shapes, t, s) && i < |it| && ConfigFrontier(shapes, key, i, hi) && Of(shapes[i], key)
    ensures ConfigFrontier(shapes, key, i + 1, shapes[i].ver)
  {
    forall j | i < j < |it| && Of(shapes[j], key) ensures shapes[j].ver > shapes[i].ver {
      ConfigsAscend(it, shapes, t, s, key, i, j);
    }
  }

  lemma ConfigStep(it: seq<Entry>, shapes: seq<Shape>, t: Typed, s: State, key: string, i: nat, hi: nat)
    requires Pinned(it, shapes, t, s) && i < |it| && ConfigFrontier(shapes, key, i, hi) && Of(shapes[i], key)
    ensures ConfigFrontier(shapes, key, i + 1, shapes[i].ver)
    ensures forall v :: hi < v < shapes[i].ver ==> (key, v) !in s.cfg
  {
    ConfigAdvance(it, shapes, t, s, key, i, hi);
    forall v | hi < v < shapes[i].ver ensures (key, v) !in s.cfg {
      ConfigNotYet(it, shapes, t, s, key, i, hi, v);
    }
  }

  lemma ConfigBelow(it: seq<Entry>, shapes: seq<Shape>, t: Typed, s: State, key: string, i: nat, hi: nat, j: nat)
    requires Pinned(it, shapes, t, s) && i < |it| && ConfigFrontier(shapes, key, i, hi) && Of(shapes[i], key)
    requires j < |it| && Of(shapes[j], key)
    ensures shapes[j].ver <= hi || shapes[i].ver <= shapes[j].ver
  {
    if i < j { ConfigsAscend(it, shapes, t, s, key, i, j); }
  }

  lemma ConfigNotYet(it: seq<Entry>, shapes: seq<Shape>, t: Typed, s: State, key: string, i: nat, hi: nat, v: nat)
    requires Pinned(it, shapes, t, s) && i < |it| && ConfigFrontier(shapes, key, i, hi) && Of(shapes[i], key)
    requires hi < v < shapes[i].ver
    ensures (key, v) !in s.cfg
  {
    if (key, v) in s.cfg {
      var j := ConfigPosition(it, shapes, t, s, key, v);
      ConfigBelow(it, shapes, t, s, key, i, hi, j);
    }
  }

  lemma ConfigPosition(it: seq<Entry>, shapes: seq<Shape>, t: Typed, s: State, key: string, v: nat) returns (j: nat)
    requires Pinned(it, shapes, t, s) && (key, v) in s.cfg
    ensures j < |it| && shapes[j] == Config(key, v)
  {
    assert Present(s, Config(key, v));
    j :| 0 <= j < |it| && shapes[j] == Config(key, v);
  }

  lemma ConfigStart(it: seq<Entry>, shapes: seq<Shape>, t: Typed, s: State, key: string, i: nat)
    requires Pinned(it, shapes, t, s) && i <= |it|
    requires forall j :: 0 <= j < i ==> LexLess(it[j].key, ConfigPrefix(key))
    ensures ConfigFrontier(shapes, key, i, 0)
  {
    forall j | 0 <= j < |it| && Of(shapes[j], key) ensures i <= j && shapes[j].ver > 0 {
      ConfigAt(it, shapes, t, s, key, j);
      PrefixBlock(ConfigPrefix(key), "", it[j].key);
    }
  }

  lemma ConfigEnd(it: seq<Entry>, shapes: seq<Shape>, t: Typed, s: State, key: string, i: nat, hi: nat)
    requires Pinned(it, shapes, t, s) && i <= |it| && ConfigFrontier(shapes, key, i, hi)
    requires i < |it| ==> !StartsWith(it[i].key, ConfigPrefix(key)) && !LexLess(it[i].key, ConfigPrefix(key))
    ensures forall v :: hi < v <= s.revision ==> (key, v) !in s.cfg
  {
    forall v | hi < v <= s.revision ensures (key, v) !in s.cfg {
      if (key, v) in s.cfg {
        var j := ConfigPosition(it, shapes, t, s, key, v);
        ConfigAt(it, shapes, t, s, key, j);
        if i <= j { BlockEnds(it, ConfigPrefix(key), i, j); }
      }
    }
  }

  lemma PublishedNext(cfg: map<(string, nat), KV>, key: string, hi: nat, v: nat)
    requires hi < v && (forall u :: hi < u < v ==> (key, u) !in cfg) && (key, v) in cfg
    ensures Published(cfg, key, v) ==
            Published(cfg, key, hi) + if !cfg[(key, v)].deleted then [cfg[(key, v)]] else []
  {
    PublishedGap(cfg, key, hi, v - 1);
  }

  lemma HistoryStep(it: seq<Entry>, shapes: seq<Shape>, t: Typed, s: State, key: string, i: nat, hi: nat)
    returns (hi': nat)
    requires Pinned(it, shapes, t, s) && i < |it| && ConfigFrontier(shapes, key, i, hi) && hi <= s.revision
    requires StartsWith(it[i].key, ConfigPrefix(key))
    ensures it[i].cell.Record? && ConfigFrontier(shapes, key, i + 1, hi') && hi' <= s.revision
    ensures var kv := it[i].cell.kv;
            Published(s.cfg, key, hi') ==
            Published(s.cfg, key, hi) + if kv.key == key && !kv.deleted then [kv] else []
  {
    ConfigAt(it, shapes, t, s, key, i);
    if Of(shapes[i], key) {
      hi' := shapes[i].ver;
      ConfigStep(it, shapes, t, s, key, i, hi);
      PublishedNext(s.cfg, key, hi, hi');
    } else {
      hi' := hi;
    }
  }

  /** GetHistory: the prefix also covers keys that continue after a slash; the key
      stored in the record tells them apart.  The result is exactly this key's
      retained published versions in ascending order, for any key. */
  method HistoryScan(it: seq<Entry>, ghost shapes: seq<Shape>, ghost t: Typed, ghost s: State, key: string)
    returns (out: seq<KV>)
    requires Pinned(it, shapes, t, s)
    ensures out == Published(s.cfg, key, s.revision)
  {
    out := [];
    var i := Seek(it, ConfigPrefix(key));
    ConfigStart(it, shapes, t, s, key, i);
    ghost var hi: nat := 0;
    while i < |it| && StartsWith(it[i].key, ConfigPrefix(key))
      invariant 0 <= i <= |it| && hi <= s.revision && ConfigFrontier(shapes, key, i, hi)
      invariant forall j :: i <= j < |it| ==> !LexLess(it[j].key, ConfigPrefix(key))
      invariant out == Published(s.cfg, key, hi)
    {
      hi := HistoryStep(it, shapes, t, s, key, i, hi);
      var kv := it[i].cell.kv;
      if kv.key == key && !kv.deleted {
        out := out + [kv];
      }
      i := i + 1;
    }
    ConfigEnd(it, shapes, t, s, key, i, hi);
    PublishedGap(s.cfg, key, hi, s.revision);
  }

  predicate VersionsAscending(kvs: seq<KV>) {
    forall i, j :: 0 <= i < j < |kvs| ==> kvs[i].version < kvs[j].version
  }

  /** The list GetHistory returns, without the recursion: every published version
      of the key is in it, nothing else is, and versions ascend. */
  lemma {:induction false} PublishedExact(cfg: map<(string, nat), KV>, key: string, hi: nat)
    requires forall p :: p in cfg ==> cfg[p].version == p.1 && cfg[p].key == p.0 && !cfg[p].deleted
    ensures forall kv :: kv in Published(cfg, key, hi) <==>
              kv.key == key && 1 <= kv.version <= hi && (key, kv.version) in cfg && cfg[(key, kv.version)] == kv
    ensures VersionsAscending(Published(cfg, key, hi))
  {
    if hi == 0 {
    } else {
      PublishedExact(cfg, key, hi - 1);
      var out, pre := Published(cfg, key, hi), Published(cfg, key, hi - 1);
      forall i | 0 <= i < |pre| ensures pre[i].version < hi { assert pre[i] in pre; }
    }
  }
}
