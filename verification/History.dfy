/** History, compaction and replay on one node: what every run of commands and
    two-phase compactions keeps (src/store/store.cpp). */
module History {
  import opened Records
  import opened Mvcc

  // ------------------------------------------------- one command, all parts

  lemma CommitHist(s: State, recs: seq<KV>, publish: bool)
    requires Inv(s) && Chain(s, recs)
    ensures var t := Commit(s, recs, publish);
            && t.revision == s.revision + |recs| && t.compactRev == s.compactRev
            && (forall r :: r in t.hist <==> r in s.hist || s.revision < r <= t.revision)
            && (forall r :: r in s.hist ==> t.hist[r] == s.hist[r])
            && (forall r :: s.revision < r <= t.revision ==>
                  t.hist[r] == recs[r - s.revision - 1] && t.hist[r].revision == r)
  {
    WriteAllCounters(s, recs);
    var t := Commit(s, recs, publish);
    forall r: nat ensures
      && (r in t.hist <==> r in s.hist || s.revision < r <= t.revision)
      && (r in s.hist ==> t.hist[r] == s.hist[r])
      && (s.revision < r <= t.revision ==> t.hist[r] == recs[r - s.revision - 1])
    {
      WriteAllHist(s, recs, r);
      assert r in s.hist ==> HistOK(s, r);
    }
    forall r | s.revision < r <= t.revision ensures t.hist[r].revision == r {
      assert Link(s, recs[r - s.revision - 1], r - s.revision - 1);
    }
  }

  /** t is s with one more record per event, under the next revisions. */
  ghost predicate GrownBy(s: State, t: State, es: seq<WatchEvent>) {
    && t.revision == s.revision + |es| && t.compactRev == s.compactRev
    && (forall r :: r in t.hist <==> r in s.hist || s.revision < r <= t.revision)
    && (forall r :: r in s.hist ==> t.hist[r] == s.hist[r])
    && (forall r :: s.revision < r <= t.revision ==>
          es[r - s.revision - 1] == MakeEvent(t.hist[r]) && t.hist[r].revision == r)
  }

  lemma RecordsGrow(s: State, t: State, recs: seq<KV>, es: seq<WatchEvent>)
    requires |es| == |recs| && forall i :: 0 <= i < |recs| ==> es[i] == MakeEvent(recs[i])
    requires t.revision == s.revision + |recs| && t.compactRev == s.compactRev
    requires forall r :: r in t.hist <==> r in s.hist || s.revision < r <= t.revision
    requires forall r :: r in s.hist ==> t.hist[r] == s.hist[r]
    requires forall r :: s.revision < r <= t.revision ==>
               t.hist[r] == recs[r - s.revision - 1] && t.hist[r].revision == r
    ensures GrownBy(s, t, es)
  {
  }

  lemma CommitGrows(s: State, recs: seq<KV>, publish: bool)
    requires Inv(s) && Chain(s, recs)
    ensures GrownBy(s, Commit(s, recs, publish), EventsOf(recs))
  {
    CommitHist(s, recs, publish);
    RecordsGrow(s, Commit(s, recs, publish), recs, EventsOf(recs));
  }

  /** A command only adds history, and announces exactly the records it adds. */
  lemma ApplyGrows(s: State, cmd: RaftCmd, writeOk: bool)
    requires Inv(s)
    ensures var (t, res) := Apply(s, cmd, writeOk); GrownBy(s, t, res.events)
  {
    var d := Decide(s, cmd);
    if d.Accept? && (d.recs == [] || writeOk) {
      DecideChain(s, cmd);
      CommitGrows(s, d.recs, d.publish);
      assert Success(cmd, d.recs).events == EventsOf(d.recs);
    }
  }

  lemma MainForward(s: State, recs: seq<KV>)
    requires Inv(s) && Chain(s, recs)
    ensures var t := WriteAll(s, recs);
            forall k :: k in s.main ==>
              && k in t.main && s.main[k].revision <= t.main[k].revision && s.main[k].version <= t.main[k].version
  {
    var t := WriteAll(s, recs);
    forall k | k in s.main
      ensures k in t.main && s.main[k].revision <= t.main[k].revision && s.main[k].version <= t.main[k].version
    {
      WriteAllMain(s, recs, k);
      assert MainOK(s, k);
      if t.main[k] != s.main[k] {
        var i :| 0 <= i < |recs| && recs[i] == t.main[k];
        assert Link(s, recs[i], i);
      }
    }
  }

  lemma ApplyMain(s: State, cmd: RaftCmd, writeOk: bool)
    requires Inv(s)
    ensures var t := Apply(s, cmd, writeOk).0;
            forall k :: k in s.main ==>
              && k in t.main && s.main[k].revision <= t.main[k].revision && s.main[k].version <= t.main[k].version
  {
    var d := Decide(s, cmd);
    if d.Accept? && (d.recs == [] || writeOk) {
      DecideChain(s, cmd);
      MainForward(s, d.recs);
    }
  }

  lemma ApplyCfg(s: State, cmd: RaftCmd, writeOk: bool)
    requires Inv(s)
    ensures var t := Apply(s, cmd, writeOk).0;
            && (forall p :: p in s.cfg ==> p in t.cfg && t.cfg[p] == s.cfg[p])
            && (forall p :: p in t.cfg && p !in s.cfg ==>
                  t.cfg[p].revision > s.revision && (p.0 in s.main ==> p.1 > s.main[p.0].version))
  {
    var d := Decide(s, cmd);
    if d.Accept? && (d.recs == [] || writeOk) {
      DecideChain(s, cmd);
      WriteAllCounters(s, d.recs);
      if d.publish {
        assert Link(s, d.recs[0], 0);
        forall p | p in s.cfg ensures p != (d.recs[0].key, d.recs[0].version) { assert CfgOK(s, p); }
      }
    }
  }

  /** Current records move forward, published versions stay, new ones are newer
      than everything the key had. */
  lemma ApplyKeys(s: State, cmd: RaftCmd, writeOk: bool)
    requires Inv(s)
    ensures var t := Apply(s, cmd, writeOk).0;
            && (forall k :: k in s.main ==> k in t.main)
            && (forall k :: k in s.main ==> s.main[k].revision <= t.main[k].revision)
            && (forall k :: k in s.main ==> s.main[k].version <= t.main[k].version)
            && (forall p :: p in s.cfg ==> p in t.cfg && t.cfg[p] == s.cfg[p])
            && (forall p :: p in t.cfg && p !in s.cfg ==>
                  t.cfg[p].revision > s.revision && (p.0 in s.main ==> p.1 > s.main[p.0].version))
  {
    ApplyMain(s, cmd, writeOk);
    ApplyCfg(s, cmd, writeOk);
  }

  // ------------------------------------------------------ counting records

  ghost function KeyRevisions(hist: map<nat, KV>, key: string, lo: nat, hi: nat): set<nat> {
    set r | r in hist && hist[r].key == key && lo < r <= hi
  }

  /** Newer counts the records of the key in (lo, hi]. */
  lemma {:induction false} NewerIsCount(hist: map<nat, KV>, key: string, lo: nat, hi: nat)
    ensures Newer(hist, key, lo, hi) == |set r | r in hist && hist[r].key == key && lo < r <= hi|
  {
    var rs := KeyRevisions(hist, key, lo, hi);
    if hi <= lo {
      assert rs == {};
    } else {
      NewerIsCount(hist, key, lo, hi - 1);
      var pre := KeyRevisions(hist, key, lo, hi - 1);
      assert rs == if hi in hist && hist[hi].key == key then pre + {hi} else pre;
    }
  }

  lemma {:induction false} NewerWitness(hist: map<nat, KV>, key: string, lo: nat, hi: nat) returns (q: nat)
    requires Newer(hist, key, lo, hi) > 0
    ensures lo < q <= hi && q in hist && hist[q].key == key
  {
    if hi in hist && hist[hi].key == key {
      q := hi;
    } else {
      q := NewerWitness(hist, key, lo, hi - 1);
    }
  }

  lemma {:induction false} NewerGrows(h: map<nat, KV>, h': map<nat, KV>, key: string, lo: nat, hi: nat, hi': nat)
    requires hi <= hi' && forall r :: r in h ==> r in h' && h'[r] == h[r]
    ensures Newer(h, key, lo, hi) <= Newer(h', key, lo, hi')
  {
    if hi < hi' {
      NewerGrows(h, h', key, lo, hi, hi' - 1);
    } else if hi > lo {
      NewerGrows(h, h', key, lo, hi - 1, hi' - 1);
    }
  }

  lemma {:induction false} NewerSplit(h: map<nat, KV>, key: string, lo: nat, hi: nat)
    requires lo < hi
    ensures Newer(h, key, lo, hi) ==
            Newer(h, key, lo + 1, hi) + if lo + 1 in h && h[lo + 1].key == key then 1 else 0
  {
    if hi == lo + 1 {
    } else {
      NewerSplit(h, key, lo, hi - 1);
    }
  }

  // ------------------------------------------------------------ compaction

  /** A scan result that may still be committed: marked records are unchanged
      and have been superseded. */
  ghost predicate Superseded(s: State, victims: map<nat, KV>) {
    forall r :: r in victims ==>
      && 1 <= r <= s.revision
      && (r in s.hist ==> s.hist[r] == victims[r])
      && victims[r].key in s.main && r < s.main[victims[r].key].revision
  }

  lemma ScanSupersedes(s: State, keep: int)
    requires Inv(s)
    ensures Superseded(s, Victims(s, keep))
  {
    forall r | r in Victims(s, keep)
      ensures s.hist[r].key in s.main && r < s.main[s.hist[r].key].revision && 1 <= r <= s.revision
    {
      assert HistOK(s, r);
      var q := NewerWitness(s.hist, s.hist[r].key, r, s.revision);
      assert HistOK(s, q);
    }
  }

  lemma ApplyKeepsSuperseded(s: State, cmd: RaftCmd, writeOk: bool, victims: map<nat, KV>)
    requires Inv(s) && Superseded(s, victims)
    ensures Superseded(Apply(s, cmd, writeOk).0, victims)
  {
    ApplyGrows(s, cmd, writeOk);
    ApplyKeys(s, cmd, writeOk);
  }

  /** Committing a scan keeps every current record, never lowers compactRev and
      leaves the history dense above it. */
  lemma CompactKeepsInv(s: State, victims: map<nat, KV>)
    requires Inv(s) && Superseded(s, victims)
    ensures Inv(Compact(s, victims))
    ensures Compact(s, victims).compactRev >= s.compactRev
    ensures forall k :: k in s.main ==> s.main[k].revision in Compact(s, victims).hist
  {
    var t := Compact(s, victims);
    forall k | k in t.main ensures MainOK(t, k) {
      assert MainOK(s, k);
    }
    forall r | r in t.hist ensures HistOK(t, r) { assert HistOK(s, r); }
    forall p | p in t.cfg ensures CfgOK(t, p) { assert CfgOK(s, p); }
  }

  // --------------------------------------------------- sequences of commands

  function Final(s: State, cmds: seq<RaftCmd>): State {
    if cmds == [] then s else After(Final(s, cmds[..|cmds| - 1]), cmds[|cmds| - 1])
  }

  function Results(s: State, cmds: seq<RaftCmd>): seq<ApplyResult> {
    if cmds == [] then []
    else Results(s, cmds[..|cmds| - 1]) + [Result(Final(s, cmds[..|cmds| - 1]), cmds[|cmds| - 1])]
  }

  function Events(s: State, cmds: seq<RaftCmd>): seq<WatchEvent> {
    if cmds == [] then []
    else Events(s, cmds[..|cmds| - 1]) + Result(Final(s, cmds[..|cmds| - 1]), cmds[|cmds| - 1]).events
  }

  lemma {:induction false} FinalGrows(s: State, cmds: seq<RaftCmd>)
    requires Inv(s)
    ensures var t := Final(s, cmds);
            && Inv(t) && t.compactRev == s.compactRev && t.revision >= s.revision
            && (forall r :: r in s.hist ==> r in t.hist && t.hist[r] == s.hist[r])
            && (forall p :: p in s.cfg ==> p in t.cfg && t.cfg[p] == s.cfg[p])
            && (forall k :: k in s.main ==> k in t.main && s.main[k].revision <= t.main[k].revision)
  {
    if cmds == [] {
    } else {
      var u, c := Final(s, cmds[..|cmds| - 1]), cmds[|cmds| - 1];
      FinalGrows(s, cmds[..|cmds| - 1]);
      ApplyKeepsInv(u, c, true);
      ApplyGrows(u, c, true);
      ApplyKeys(u, c, true);
    }
  }

  lemma {:induction false} FinalKeepsSuperseded(s: State, cmds: seq<RaftCmd>, victims: map<nat, KV>)
    requires Inv(s) && Superseded(s, victims)
    ensures Superseded(Final(s, cmds), victims)
  {
    if cmds == [] {
    } else {
      FinalKeepsSuperseded(s, cmds[..|cmds| - 1], victims);
      FinalGrows(s, cmds[..|cmds| - 1]);
      ApplyKeepsSuperseded(Final(s, cmds[..|cmds| - 1]), cmds[|cmds| - 1], true, victims);
    }
  }

  lemma VictimsStayOld(s: State, cmds: seq<RaftCmd>, keep: int)
    requires Inv(s)
    ensures var t, v := Final(s, cmds), Victims(s, keep);
            && Inv(t) && Superseded(t, v)
            && (forall r :: r in v ==> r in t.hist && t.hist[r] == v[r] && r <= s.revision)
            && (forall r :: r in v ==> Newer(t.hist, v[r].key, r, t.revision) >= if keep < 1 then 1 else keep)
  {
    var t, v := Final(s, cmds), Victims(s, keep);
    ScanSupersedes(s, keep);
    FinalGrows(s, cmds);
    FinalKeepsSuperseded(s, cmds, v);
    forall r | r in v ensures r <= s.revision && Newer(t.hist, v[r].key, r, t.revision) >= if keep < 1 then 1 else keep {
      NewerGrows(s.hist, t.hist, v[r].key, r, s.revision, t.revision);
    }
  }

  /** A version index entry that goes with a batch goes with its own record. */
  lemma VersionGoesWithRecord(t: State, v: map<nat, KV>, p: (string, nat))
    requires Inv(t) && p in t.cfg && p in VersionsOf(v)
    requires forall r :: r in v ==> r in t.hist && t.hist[r] == v[r]
    ensures t.cfg[p].revision in v && v[t.cfg[p].revision] == t.cfg[p] && t.cfg[p].key == p.0
  {
    var r :| r in v && (v[r].key, v[r].version) == p;
    assert CfgOK(t, p) && HistOK(t, r);
  }

  /** Two-phase compaction: the scan sees s, any commands run, then the batch is
      committed.  Exactly the records go that the scan found outside their key's
      newest max(n,1); they still are in the later state; current records stay; a
      published version goes only with its own record; compactRev does not drop and
      nothing above it is missing. */
  lemma TwoPhaseCompaction(s: State, cmds: seq<RaftCmd>, keep: int)
    requires Inv(s)
    ensures var t := Final(s, cmds);
            var u := Compact(t, Victims(s, keep));
            && Inv(u) && u.main == t.main && u.revision == t.revision
            && u.compactRev >= t.compactRev
            && (forall r :: r in t.hist && r !in u.hist <==>
                  r in s.hist && Newer(s.hist, s.hist[r].key, r, s.revision) >= if keep < 1 then 1 else keep)
            && (forall r :: r in t.hist && r !in u.hist ==>
                  r <= u.compactRev && Newer(t.hist, t.hist[r].key, r, t.revision) >= if keep < 1 then 1 else keep)
            && (forall r :: r in u.hist ==> r in t.hist && u.hist[r] == t.hist[r])
            && (forall k :: k in t.main ==> t.main[k].revision in u.hist)
            && (forall p :: p in t.cfg && p !in u.cfg ==>
                  t.cfg[p].revision !in u.hist && t.cfg[p].revision <= s.revision &&
                  Newer(t.hist, p.0, t.cfg[p].revision, t.revision) >= if keep < 1 then 1 else keep)
            && (forall p :: p in u.cfg ==> p in t.cfg && u.cfg[p] == t.cfg[p])
  {
    var t, v := Final(s, cmds), Victims(s, keep);
    VictimsStayOld(s, cmds, keep);
    CompactKeepsInv(t, v);
    CompactDrops(t, v);
    forall p | p in t.cfg && p !in Compact(t, v).cfg
      ensures t.cfg[p].revision in v && v[t.cfg[p].revision] == t.cfg[p] && t.cfg[p].key == p.0
    {
      VersionGoesWithRecord(t, v, p);
    }
  }

  /** A compaction removes its victims, the entries that go with them, and nothing else. */
  lemma CompactDrops(t: State, v: map<nat, KV>)
    ensures var u := Compact(t, v);
            && u.main == t.main && u.revision == t.revision
            && (forall r :: r in t.hist ==> if r in v then r !in u.hist && r <= u.compactRev else r in u.hist)
            && (forall r :: r in u.hist ==> r in t.hist && u.hist[r] == t.hist[r])
            && (forall p :: p in t.cfg && p !in u.cfg ==> p in VersionsOf(v))
            && (forall p :: p in u.cfg ==> p in t.cfg && u.cfg[p] == t.cfg[p])
  {
  }

  /** Without interleaving, each key keeps exactly its newest max(n,1) records. */
  lemma CompactionKeepsNewest(s: State, keep: int, key: string)
    requires Inv(s)
    ensures var u := Compact(s, Victims(s, keep));
            var before := Newer(s.hist, key, 0, s.revision);
            var most := if keep < 1 then 1 else keep;
            Newer(u.hist, key, 0, s.revision) == if before < most then before else most
  {
    KeptAbove(s, keep, key, 0);
  }

  lemma {:induction false} KeptAbove(s: State, keep: int, key: string, lo: nat)
    requires Inv(s) && lo <= s.revision
    ensures var u := Compact(s, Victims(s, keep));
            var before := Newer(s.hist, key, lo, s.revision);
            var most := if keep < 1 then 1 else keep;
            Newer(u.hist, key, lo, s.revision) == if before < most then before else most
    decreases s.revision - lo
  {
    if lo >= s.revision {
    } else {
      var u := Compact(s, Victims(s, keep));
      KeptAbove(s, keep, key, lo + 1);
      NewerSplit(s.hist, key, lo, s.revision);
      NewerSplit(u.hist, key, lo, s.revision);
      assert lo + 1 in u.hist <==> lo + 1 in s.hist && lo + 1 !in Victims(s, keep);
    }
  }

  // ------------------------------------------------------------- local runs

  datatype Local = Local(s: State, plan: Option<map<nat, KV>>, stream: seq<WatchEvent>)

  datatype Action = Do(cmd: RaftCmd, writeOk: bool) | Scan(keep: int) | Erase(writeOk: bool)

  ghost function LocalStep(l: Local, a: Action): Local {
    match a
    case Do(cmd, ok) =>
      var (t, res) := Apply(l.s, cmd, ok);
      l.(s := t, stream := l.stream + res.events)
    case Scan(keep) => if l.plan.None? then l.(plan := Some(Victims(l.s, keep))) else l
    case Erase(ok) => l.(s := if ok && l.plan.Some? then Compact(l.s, l.plan.value) else l.s, plan := None)
  }

  ghost function LocalRun(actions: seq<Action>): Local {
    if actions == [] then Local(EMPTY, None, [])
    else LocalStep(LocalRun(actions[..|actions| - 1]), actions[|actions| - 1])
  }

  /** The live stream and the stored history tell the same story. */
  ghost predicate Recorded(stream: seq<WatchEvent>, s: State) {
    && |stream| == s.revision
    && Numbered(stream, 0)
    && (forall r :: r in s.hist ==> 1 <= r <= s.revision && stream[r - 1] == MakeEvent(s.hist[r]))
  }

  ghost predicate LocalInv(l: Local) {
    && Inv(l.s)
    && Recorded(l.stream, l.s)
    && (l.plan.Some? ==> Superseded(l.s, l.plan.value))
    && (l.s.compactRev > 0 ==> l.s.compactRev !in l.s.hist)
  }

  lemma GrownNumbered(s: State, t: State, es: seq<WatchEvent>)
    requires GrownBy(s, t, es)
    ensures Numbered(es, s.revision)
  {
    forall i | 0 <= i < |es| ensures es[i].revision == s.revision + i + 1 {
      var r: nat := s.revision + i + 1;
      assert es[r - s.revision - 1] == MakeEvent(t.hist[r]);
    }
  }

  lemma GrownEvent(stream: seq<WatchEvent>, s: State, t: State, es: seq<WatchEvent>, r: nat)
    requires Recorded(stream, s) && GrownBy(s, t, es) && r in t.hist
    ensures 1 <= r <= t.revision && (stream + es)[r - 1] == MakeEvent(t.hist[r])
  {
    if r > s.revision {
      assert es[r - s.revision - 1] == MakeEvent(t.hist[r]);
    }
  }

  lemma RecordedGrows(stream: seq<WatchEvent>, s: State, t: State, es: seq<WatchEvent>)
    requires Recorded(stream, s) && GrownBy(s, t, es)
    ensures Recorded(stream + es, t)
  {
    GrownNumbered(s, t, es);
    forall r | r in t.hist ensures 1 <= r <= t.revision && (stream + es)[r - 1] == MakeEvent(t.hist[r]) {
      GrownEvent(stream, s, t, es, r);
    }
  }

  lemma RecordedStep(stream: seq<WatchEvent>, s: State, cmd: RaftCmd, writeOk: bool)
    requires Inv(s) && Recorded(stream, s)
    ensures Recorded(stream + Apply(s, cmd, writeOk).1.events, Apply(s, cmd, writeOk).0)
  {
    ApplyGrows(s, cmd, writeOk);
    RecordedGrows(stream, s, Apply(s, cmd, writeOk).0, Apply(s, cmd, writeOk).1.events);
  }

  lemma DoKeeps(l: Local, cmd: RaftCmd, writeOk: bool)
    requires LocalInv(l)
    ensures LocalInv(LocalStep(l, Do(cmd, writeOk)))
    ensures LocalStep(l, Do(cmd, writeOk)).s.compactRev == l.s.compactRev
  {
    ApplyKeepsInv(l.s, cmd, writeOk);
    RecordedStep(l.stream, l.s, cmd, writeOk);
    if l.plan.Some? { ApplyKeepsSuperseded(l.s, cmd, writeOk, l.plan.value); }
    ApplyGrows(l.s, cmd, writeOk);
  }

  lemma ErasedRecorded(stream: seq<WatchEvent>, s: State, victims: map<nat, KV>)
    requires Recorded(stream, s)
    ensures Recorded(stream, Compact(s, victims))
  {
  }

  lemma TopErased(s: State, victims: map<nat, KV>)
    requires s.compactRev > 0 ==> s.compactRev !in s.hist
    ensures var t := Compact(s, victims); t.compactRev > 0 ==> t.compactRev !in t.hist
  {
  }

  lemma EraseKeeps(l: Local, ok: bool)
    requires LocalInv(l)
    ensures LocalInv(LocalStep(l, Erase(ok)))
    ensures LocalStep(l, Erase(ok)).s.compactRev >= l.s.compactRev
  {
    if ok && l.plan.Some? {
      CompactKeepsInv(l.s, l.plan.value);
      ErasedRecorded(l.stream, l.s, l.plan.value);
      TopErased(l.s, l.plan.value);
    }
  }

  lemma LocalStepKeeps(l: Local, a: Action)
    requires LocalInv(l)
    ensures LocalInv(LocalStep(l, a))
    ensures LocalStep(l, a).s.compactRev >= l.s.compactRev
    ensures l.stream <= LocalStep(l, a).stream
  {
    match a
    case Do(cmd, ok) => DoKeeps(l, cmd, ok);
    case Scan(keep) => ScanSupersedes(l.s, keep);
    case Erase(ok) => EraseKeeps(l, ok);
  }

  lemma {:induction false} LocalRunInv(actions: seq<Action>)
    ensures LocalInv(LocalRun(actions))
  {
    if actions == [] {
    } else {
      LocalRunInv(actions[..|actions| - 1]);
      LocalStepKeeps(LocalRun(actions[..|actions| - 1]), actions[|actions| - 1]);
    }
  }

  ghost predicate Complete(hist: map<nat, KV>, lo: nat, hi: nat) {
    forall r :: lo < r <= hi ==> r in hist
  }

  /** In every reachable state each revision above compactRev has its record
      (one: the history is a map by revision), and without snapshot loads the
      record at a positive compactRev is gone, so "from < compactRev" is exactly
      "some record of (from, current] is missing". */
  lemma DenseHistory(actions: seq<Action>, from: nat)
    ensures var s := LocalRun(actions).s;
            Complete(s.hist, s.compactRev, s.revision) &&
            (from < s.compactRev <==> !Complete(s.hist, from, s.revision))
  {
    LocalRunInv(actions);
  }

  /** With snapshot loads the test can only err on the safe side, and it is exact
      precisely when the record at compactRev is gone. */
  lemma CompactedTestExact(s: State)
    requires Inv(s) && s.compactRev > 0
    ensures (forall from: nat :: from >= s.compactRev ==> Complete(s.hist, from, s.revision))
    ensures (forall from: nat :: from < s.compactRev ==> !Complete(s.hist, from, s.revision))
            <==> s.compactRev !in s.hist
  {
    if s.compactRev in s.hist {
      assert Complete(s.hist, s.compactRev - 1, s.revision);
    }
  }

  // ---------------------------------------------------------------- replay

  /** The stored record of revision r is the stream's event. */
  ghost predicate Mirrors(hist: map<nat, KV>, stream: seq<WatchEvent>, r: nat)
    requires 0 < r <= |stream|
  {
    r in hist && ReplayedEvent(r, hist[r]) == stream[r - 1]
  }

  /** Above compactRev the stored history rebuilds the stream. */
  lemma HistoryIsStream(s: State, stream: seq<WatchEvent>, r: nat)
    requires Inv(s) && Recorded(stream, s) && s.compactRev < r <= s.revision
    ensures Mirrors(s.hist, stream, r)
  {
    assert HistOK(s, r);
  }

  lemma EventsNext(hist: map<nat, KV>, stream: seq<WatchEvent>, lo: nat, hi: nat, filter: string)
    requires lo < hi <= |stream| && hi in hist && ReplayedEvent(hi, hist[hi]) == stream[hi - 1]
    requires EventsIn(hist, lo, hi - 1, filter) == Select(stream[lo..hi - 1], filter)
    ensures EventsIn(hist, lo, hi, filter) == Select(stream[lo..hi], filter)
  {
    assert stream[lo..hi] == stream[lo..hi - 1] + [stream[hi - 1]];
    SelectSnoc(stream[lo..hi - 1], stream[hi - 1], filter);
  }

  /** A replay over complete history is the matching part of the stream. */
  lemma {:induction false} EventsInSelect(hist: map<nat, KV>, stream: seq<WatchEvent>, lo: nat, hi: nat, filter: string)
    requires lo <= hi <= |stream|
    requires forall r: nat :: lo < r <= hi ==> Mirrors(hist, stream, r)
    ensures EventsIn(hist, lo, hi, filter) == Select(stream[lo..hi], filter)
  {
    if lo == hi {
    } else {
      EventsInSelect(hist, stream, lo, hi - 1, filter);
      assert Mirrors(hist, stream, hi);
      EventsNext(hist, stream, lo, hi, filter);
    }
  }

  function Window(stream: seq<WatchEvent>, lo: nat, hi: nat): seq<WatchEvent> {
    if lo <= hi <= |stream| then stream[lo..hi] else []
  }

  /** Replay racing compaction: the iterator is pinned after `before`, compactRev
      is read after `later` more steps.  An OK answer is the never-compacted
      stream over (from, cur], filtered and cut to max; only `from < compactRev`
      refuses, and only if something was asked for. */
  lemma ReplayRacingCompaction(before: seq<Action>, later: seq<Action>, from: int, cur: nat, filter: string, max: int)
    requires cur <= LocalRun(before).s.revision
    ensures var pinned, now := LocalRun(before), LocalRun(before + later);
            var lo := if from < 0 then 0 else from;
            && cur <= |now.stream| && pinned.stream <= now.stream
            && var all := if lo <= cur then Select(now.stream[lo..cur], filter) else [];
               Replay(pinned.s.hist, now.s.compactRev, from, cur, filter, max) ==
                 if max <= 0 then (OK, [])
                 else if lo < now.s.compactRev then (COMPACTED, [])
                 else (OK, if |all| <= max then all else all[..max])
  {
    var pinned, now := LocalRun(before), LocalRun(before + later);
    LocalRunInv(before);
    LaterStates(before, later);
    var lo := Clamp(from);
    if lo >= now.s.compactRev && lo <= cur {
      forall r | lo < r <= cur
        ensures Mirrors(pinned.s.hist, now.stream, r)
      {
        HistoryIsStream(pinned.s, pinned.stream, r);
      }
      EventsInSelect(pinned.s.hist, now.stream, lo, cur, filter);
    }
  }

  lemma LaterState(before: seq<Action>, a: Action)
    ensures LocalRun(before + [a]) == LocalStep(LocalRun(before), a)
  {
    assert (before + [a])[..|before|] == before;
  }

  lemma LaterGrows(before: seq<Action>, a: Action)
    ensures var l, m := LocalRun(before), LocalRun(before + [a]);
            l.s.compactRev <= m.s.compactRev && l.stream <= m.stream
  {
    LaterState(before, a);
    LocalRunInv(before);
    LocalStepKeeps(LocalRun(before), a);
  }

  lemma {:induction false} LaterStates(before: seq<Action>, later: seq<Action>)
    ensures var a, b := LocalRun(before), LocalRun(before + later);
            a.s.compactRev <= b.s.compactRev && a.stream <= b.stream
  {
    if later == [] {
      assert before + later == before;
    } else {
      var pre, a := later[..|later| - 1], later[|later| - 1];
      LaterStates(before, pre);
      assert before + later == (before + pre) + [a];
      LaterGrows(before + pre, a);
    }
  }

  /** Live and replayed events coincide: the announced stream is numbered
      1,2,3,... and above compactRev a replay from any anchor returns it field
      for field. */
  lemma LiveEqualsReplay(actions: seq<Action>, from: nat, filter: string, max: int)
    requires max > 0
    ensures var l := LocalRun(actions);
            && Numbered(l.stream, 0) && |l.stream| == l.s.revision
            && Replay(l.s.hist, l.s.compactRev, from, l.s.revision, filter, max) ==
                 var all := Select(Window(l.stream, from, |l.stream|), filter);
                 if from < l.s.compactRev then (COMPACTED, [])
                 else (OK, if |all| <= max then all else all[..max])
  {
    LocalRunInv(actions);
    ReplayRacingCompaction(actions, [], from, LocalRun(actions).s.revision, filter, max);
    assert actions + [] == actions;
  }

  // ----------------------------------------------------- published versions

  /** The version belongs to kv: it is not above the key's current version, and the
      index has no other record for it. */
  ghost predicate Assigned(s: State, key: string, version: nat, kv: KV) {
    && key in s.main && version <= s.main[key].version
    && ((key, version) in s.cfg ==> s.cfg[(key, version)] == kv)
  }

  lemma StepKeepsAssigned(l: Local, a: Action, key: string, version: nat, kv: KV)
    requires LocalInv(l) && Assigned(l.s, key, version, kv)
    ensures Assigned(LocalStep(l, a).s, key, version, kv)
  {
    if a.Do? { ApplyKeys(l.s, a.cmd, a.writeOk); }
  }

  lemma {:induction false} RunKeepsAssigned(before: seq<Action>, later: seq<Action>, key: string, version: nat, kv: KV)
    requires Assigned(LocalRun(before).s, key, version, kv)
    ensures Assigned(LocalRun(before + later).s, key, version, kv)
  {
    if later == [] {
      assert before + later == before;
    } else {
      var pre, a := later[..|later| - 1], later[|later| - 1];
      RunKeepsAssigned(before, pre, key, version, kv);
      assert before + later == (before + pre) + [a];
      LaterState(before + pre, a);
      LocalRunInv(before + pre);
      StepKeepsAssigned(LocalRun(before + pre), a, key, version, kv);
    }
  }

  lemma LookupAssigns(s: State, key: string, version: nat, kv: KV)
    requires Inv(s) && version > 0
    ensures GetConfig(s, key, version) == (OK, Some(kv)) ==> Assigned(s, key, version, kv)
    ensures Assigned(s, key, version, kv) ==>
              GetConfig(s, key, version) in {(OK, Some(kv)), (VERSION_NOT_FOUND, None)}
  {
    if (key, version) in s.cfg { assert CfgOK(s, (key, version)); }
  }

  /** Published versions are immutable and never reused on a store: over any run of
      commands and compactions, refused commands (rollbacks to compacted versions
      among them) and failed writes included, a version that was once looked up as kv
      is kv or VERSION_NOT_FOUND ever after. */
  lemma PublishedNeverReused(before: seq<Action>, later: seq<Action>, key: string, version: nat, kv: KV)
    requires version > 0 && GetConfig(LocalRun(before).s, key, version) == (OK, Some(kv))
    ensures GetConfig(LocalRun(before + later).s, key, version) in {(OK, Some(kv)), (VERSION_NOT_FOUND, None)}
  {
    LocalRunInv(before);
    LookupAssigns(LocalRun(before).s, key, version, kv);
    RunKeepsAssigned(before, later, key, version, kv);
    LocalRunInv(before + later);
    LookupAssigns(LocalRun(before + later).s, key, version, kv);
  }
}
