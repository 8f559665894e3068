/** Laws of single commands: batches against loops of puts, contention on
    compare-and-swap (src/store/store.cpp, src/store/store_ops.cpp). */
module Commands {
  import opened Records
  import opened Mvcc
  import opened History

  // ---------------------------------------------------------------- batches

  function Puts(puts: seq<(string, string)>): (cmds: seq<RaftCmd>)
    ensures |cmds| == |puts|
  {
    seq(|puts|, i requires 0 <= i < |puts| => Put(puts[i].0, puts[i].1))
  }

  predicate DistinctKeys(puts: seq<(string, string)>) {
    forall i, j :: 0 <= i < j < |puts| ==> puts[i].0 != puts[j].0
  }

  predicate HasKey(puts: seq<(string, string)>, key: string) {
    exists i :: 0 <= i < |puts| && puts[i].0 == key
  }

  /** The records returned by putting the pairs one after another. */
  function LoopRecords(s: State, puts: seq<(string, string)>): seq<KV> {
    if puts == [] then []
    else
      var pre, last := puts[..|puts| - 1], puts[|puts| - 1];
      LoopRecords(s, pre) + [NewRecord(Final(s, Puts(pre)), last.0, last.1, false)]
  }

  lemma PutsSnoc(puts: seq<(string, string)>)
    requires puts != []
    ensures var pre, last := puts[..|puts| - 1], puts[|puts| - 1];
            Puts(puts)[..|puts| - 1] == Puts(pre) && Puts(puts)[|puts| - 1] == Put(last.0, last.1)
  {
  }

  lemma {:induction false} LoopIsWriteAll(s: State, puts: seq<(string, string)>)
    ensures Final(s, Puts(puts)) == WriteAll(s, LoopRecords(s, puts))
    ensures Final(s, Puts(puts)).revision == s.revision + |puts|
    ensures |LoopRecords(s, puts)| == |puts|
  {
    if puts == [] {
    } else {
      var pre, last := puts[..|puts| - 1], puts[|puts| - 1];
      LoopIsWriteAll(s, pre);
      PutsSnoc(puts);
      var t := Final(s, Puts(pre));
      SingleWrite(t, NewRecord(t, last.0, last.1, false));
      var recs := LoopRecords(s, puts);
      assert recs[..|recs| - 1] == LoopRecords(s, pre);
    }
  }

  lemma EventsSnoc(recs: seq<KV>, kv: KV)
    ensures EventsOf(recs + [kv]) == EventsOf(recs) + [MakeEvent(kv)]
    ensures EventsOf([kv]) == [MakeEvent(kv)]
  {
  }

  lemma {:induction false} LoopEvents(s: State, puts: seq<(string, string)>)
    ensures Events(s, Puts(puts)) == EventsOf(LoopRecords(s, puts))
  {
    if puts == [] {
    } else {
      var pre, last := puts[..|puts| - 1], puts[|puts| - 1];
      LoopEvents(s, pre);
      PutsSnoc(puts);
      EventsSnoc(LoopRecords(s, pre), NewRecord(Final(s, Puts(pre)), last.0, last.1, false));
    }
  }

  lemma HasKeySnoc(puts: seq<(string, string)>, key: string)
    requires puts != []
    ensures HasKey(puts, key) <==> HasKey(puts[..|puts| - 1], key) || puts[|puts| - 1].0 == key
  {
    var pre := puts[..|puts| - 1];
    if HasKey(pre, key) {
      var i :| 0 <= i < |pre| && pre[i].0 == key;
      assert puts[i].0 == key;
    }
    if puts[|puts| - 1].0 == key { assert HasKey(puts, key); }
  }

  lemma PutVersion(s: State, k: string, v: string, key: string)
    ensures NextVersion(After(s, Put(k, v)), key) == NextVersion(s, key) + if key == k then 1 else 0
  {
    SingleWrite(s, NewRecord(s, k, v, false));
  }

  /** What the loop makes of a key's version so far. */
  lemma {:induction false} LoopVersion(s: State, puts: seq<(string, string)>, key: string)
    ensures var t := Final(s, Puts(puts));
            if HasKey(puts, key) then NextVersion(t, key) > NextVersion(s, key)
            else NextVersion(t, key) == NextVersion(s, key)
  {
    if puts == [] {
    } else {
      var pre, last := puts[..|puts| - 1], puts[|puts| - 1];
      LoopVersion(s, pre, key);
      PutsSnoc(puts);
      PutVersion(Final(s, Puts(pre)), last.0, last.1, key);
      HasKeySnoc(puts, key);
    }
  }

  lemma BatchSnoc(s: State, puts: seq<(string, string)>)
    requires puts != []
    ensures var pre, last := puts[..|puts| - 1], puts[|puts| - 1];
            BatchRecords(s, puts) == BatchRecords(s, pre) +
              [KV(last.0, last.1, NextVersion(s, last.0), s.revision + |puts|, false)]
  {
  }

  lemma SnocEqual<T>(a: seq<T>, x: T, b: seq<T>, y: T)
    ensures a + [x] == b + [y] <==> a == b && x == y
  {
    if a + [x] == b + [y] {
      assert (a + [x])[..|a|] == a && (b + [y])[..|b|] == b;
      assert (a + [x])[|a|] == x;
    }
  }

  lemma {:induction false} BatchRecordsLoop(s: State, puts: seq<(string, string)>)
    ensures DistinctKeys(puts) <==> BatchRecords(s, puts) == LoopRecords(s, puts)
  {
    if puts == [] {
    } else {
      var pre, last := puts[..|puts| - 1], puts[|puts| - 1];
      BatchRecordsLoop(s, pre);
      DistinctSnoc(puts);
      BatchSnoc(s, puts);
      LoopVersion(s, pre, last.0);
      LoopIsWriteAll(s, pre);
      var x := KV(last.0, last.1, NextVersion(s, last.0), s.revision + |puts|, false);
      var y := NewRecord(Final(s, Puts(pre)), last.0, last.1, false);
      assert x == y <==> !HasKey(pre, last.0);
      SnocEqual(BatchRecords(s, pre), x, LoopRecords(s, pre), y);
    }
  }

  lemma DistinctSnoc(puts: seq<(string, string)>)
    requires puts != []
    ensures DistinctKeys(puts) <==>
            DistinctKeys(puts[..|puts| - 1]) && !HasKey(puts[..|puts| - 1], puts[|puts| - 1].0)
  {
    var pre, last := puts[..|puts| - 1], puts[|puts| - 1];
    if HasKey(pre, last.0) {
      var i :| 0 <= i < |pre| && pre[i].0 == last.0;
      assert puts[i].0 == puts[|puts| - 1].0;
    }
    if DistinctKeys(pre) && !HasKey(pre, last.0) {
      forall i, j | 0 <= i < j < |puts| ensures puts[i].0 != puts[j].0 {
        assert puts[i] == pre[i];
        if j < |pre| { assert puts[j] == pre[j]; }
      }
    }
  }

  /** BatchPut refines a loop of Put exactly on pairwise distinct keys: then final
      store, revisions, records and events agree; with a repeated key the records
      differ, because versions are read from the database and not from the batch. */
  lemma BatchPutRefinesPuts(s: State, puts: seq<(string, string)>)
    ensures DistinctKeys(puts) <==> Result(s, BatchPut(puts)).kvs == LoopRecords(s, puts)
    ensures DistinctKeys(puts) ==>
              After(s, BatchPut(puts)) == Final(s, Puts(puts)) &&
              Result(s, BatchPut(puts)).events == Events(s, Puts(puts))
  {
    BatchRecordsLoop(s, puts);
    LoopIsWriteAll(s, puts);
    LoopEvents(s, puts);
  }

  // --------------------------------------------------------- compare-and-swap

  /** A command that is not OK changes nothing and announces nothing. */
  lemma FailureChangesNothing(s: State, cmd: RaftCmd, writeOk: bool)
    ensures var (t, res) := Apply(s, cmd, writeOk);
            res.code != OK ==> t == s && res.events == [] && res.kv == None && res.kvs == []
  {
  }

  predicate Touches(cmd: RaftCmd, key: string) {
    match cmd
    case BatchPut(puts) => HasKey(puts, key)
    case Unknown => false
    case _ => cmd.key == key
  }

  lemma UntouchedKey(s: State, cmd: RaftCmd, key: string)
    requires !Touches(cmd, key)
    ensures var t := After(s, cmd);
            (key in t.main <==> key in s.main) && (key in s.main ==> t.main[key] == s.main[key])
  {
    var d := Decide(s, cmd);
    if d.Accept? {
      forall i | 0 <= i < |d.recs| ensures d.recs[i].key != key {
        if cmd.BatchPut? { assert cmd.puts[i].0 == d.recs[i].key; }
      }
      OtherKeys(s, d.recs, key);
    }
  }

  lemma {:induction false} OtherKeys(s: State, recs: seq<KV>, key: string)
    requires forall i :: 0 <= i < |recs| ==> recs[i].key != key
    ensures var t := WriteAll(s, recs);
            (key in t.main <==> key in s.main) && (key in s.main ==> t.main[key] == s.main[key])
  {
    if recs == [] {
    } else {
      OtherKeys(s, recs[..|recs| - 1], key);
    }
  }

  /** Every command that can touch the key is a swap away from `expected`. */
  predicate Contended(cmds: seq<RaftCmd>, key: string, expected: string) {
    forall i :: 0 <= i < |cmds| && Touches(cmds[i], key) ==>
      cmds[i].Cas? && cmds[i].expected == expected && cmds[i].value != expected
  }

  function Attempts(cmds: seq<RaftCmd>, key: string): nat {
    if cmds == [] then 0
    else Attempts(cmds[..|cmds| - 1], key) + if Touches(cmds[|cmds| - 1], key) then 1 else 0
  }

  function Wins(s: State, cmds: seq<RaftCmd>, key: string): nat {
    if cmds == [] then 0
    else
      var pre, c := cmds[..|cmds| - 1], cmds[|cmds| - 1];
      Wins(s, pre, key) +
      if Touches(c, key) && Result(Final(s, pre), c).code == OK then 1 else 0
  }

  predicate Holds(s: State, key: string, value: string) {
    Live(s, key) && s.main[key].value == value
  }

  lemma SwapStep(s: State, cmd: RaftCmd, key: string, expected: string)
    requires expected != "" && (Touches(cmd, key) ==> cmd.Cas? && cmd.expected == expected && cmd.value != expected)
    ensures Touches(cmd, key) ==> (Result(s, cmd).code == OK <==> Holds(s, key, expected))
    ensures Holds(After(s, cmd), key, expected) <==> Holds(s, key, expected) && !Touches(cmd, key)
  {
    if Touches(cmd, key) {
      if Holds(s, key, expected) { SingleWrite(s, NewRecord(s, key, cmd.value, false)); }
    } else {
      UntouchedKey(s, cmd, key);
    }
  }

  /** CAS contention: when every command on a key is a swap from the same non-empty
      expectation to another value, exactly one attempt wins if the key starts live
      with that value, and none otherwise; and it is over as soon as one was made. */
  lemma {:induction false} ExactlyOneSwapWins(s: State, cmds: seq<RaftCmd>, key: string, expected: string)
    requires expected != "" && Contended(cmds, key, expected)
    ensures Wins(s, cmds, key) == if Holds(s, key, expected) && Attempts(cmds, key) > 0 then 1 else 0
    ensures Holds(Final(s, cmds), key, expected) <==> Holds(s, key, expected) && Attempts(cmds, key) == 0
  {
    if cmds == [] {
    } else {
      var pre, c := cmds[..|cmds| - 1], cmds[|cmds| - 1];
      ExactlyOneSwapWins(s, pre, key, expected);
      SwapStep(Final(s, pre), c, key, expected);
    }
  }
}
