/** Values exchanged by the store, the replicated log and the watch hub
    (proto/configraft.proto, src/raft/node.h). */
module Records {

  datatype Option<+T> = None | Some(value: T)

  datatype Code =
    | OK | KEY_NOT_FOUND | CAS_FAILED | NOT_LEADER | VERSION_NOT_FOUND
    | COMPACTED | INVALID_ARGUMENT | INTERNAL

  datatype KV = KV(key: string, value: string, version: nat, revision: nat, deleted: bool)

  datatype WatchEvent =
    WatchEvent(revision: nat, key: string, value: string, version: nat, kind: string)

  datatype RaftCmd =
    | Put(key: string, value: string)
    | Delete(key: string)
    | BatchPut(puts: seq<(string, string)>)
    | Cas(key: string, expected: string, value: string)
    | Publish(key: string, value: string)
    | Rollback(key: string, target: int)
    | Unknown

  datatype ApplyResult =
    ApplyResult(code: Code, kv: Option<KV>, kvs: seq<KV>, events: seq<WatchEvent>)

  datatype SnapshotData = SnapshotData(revision: nat, kvs: seq<KV>, cfgKvs: seq<KV>)

  /** The event announced for a freshly written record. */
  function MakeEvent(kv: KV): WatchEvent {
    WatchEvent(kv.revision, kv.key, kv.value, kv.version, if kv.deleted then "DELETE" else "PUT")
  }

  /** The event a replay rebuilds from a history record filed under `rev`. */
  function ReplayedEvent(rev: nat, kv: KV): WatchEvent {
    WatchEvent(rev, kv.key, kv.value, kv.version, if kv.deleted then "DELETE" else "PUT")
  }

  predicate Matches(filter: string, e: WatchEvent) {
    filter == "" || e.key == filter
  }

  /** The matching events of a list, in order. */
  function Select(es: seq<WatchEvent>, filter: string): seq<WatchEvent> {
    if es == [] then []
    else
      var rest := Select(es[..|es| - 1], filter);
      var last := es[|es| - 1];
      if Matches(filter, last) then rest + [last] else rest
  }

  function EventsOf(recs: seq<KV>): (es: seq<WatchEvent>)
    ensures |es| == |recs|
    ensures forall i :: 0 <= i < |recs| ==> es[i] == MakeEvent(recs[i])
  {
    seq(|recs|, i requires 0 <= i < |recs| => MakeEvent(recs[i]))
  }

  lemma Assoc<T>(a: seq<T>, b: seq<T>, c: seq<T>)
    ensures a + b + c == a + (b + c)
  {
  }

  lemma SelectSnoc(es: seq<WatchEvent>, e: WatchEvent, filter: string)
    ensures Select(es + [e], filter) == Select(es, filter) + if Matches(filter, e) then [e] else []
  {
    assert (es + [e])[..|es|] == es;
  }

  lemma {:induction false} SelectConcat(a: seq<WatchEvent>, b: seq<WatchEvent>, filter: string)
    ensures Select(a + b, filter) == Select(a, filter) + Select(b, filter)
  {
    if b == [] {
      assert a + b == a;
    } else {
      var c := b[..|b| - 1];
      assert (a + b)[..|a + b| - 1] == a + c;
      SelectConcat(a, c, filter);
    }
  }

  lemma {:induction false} SelectMember(es: seq<WatchEvent>, filter: string, e: WatchEvent)
    ensures e in Select(es, filter) <==> e in es && Matches(filter, e)
  {
    if es == [] {
    } else {
      SelectMember(es[..|es| - 1], filter, e);
      assert es == es[..|es| - 1] + [es[|es| - 1]];
    }
  }

  /** Position i holds the event of revision offset + i + 1. */
  predicate Numbered(es: seq<WatchEvent>, offset: nat) {
    forall i :: 0 <= i < |es| ==> es[i].revision == offset + i + 1
  }

  /** Selecting from numbered events keeps, in order, exactly those of the wanted
      key; an empty filter wants every key. */
  lemma SelectExactly(es: seq<WatchEvent>, filter: string, offset: nat)
    requires Numbered(es, offset)
    ensures var r := Select(es, filter);
            && (forall i, j :: 0 <= i < j < |r| ==> r[i].revision < r[j].revision)
            && (forall e :: e in r <==> e in es && (filter == "" || e.key == filter))
  {
    SelectAscending(es, filter, offset);
    forall e ensures e in Select(es, filter) <==> e in es && Matches(filter, e) { SelectMember(es, filter, e); }
  }

  predicate Ascending(es: seq<WatchEvent>) {
    forall i, j :: 0 <= i < j < |es| ==> es[i].revision < es[j].revision
  }

  lemma {:induction false} SelectAscending(es: seq<WatchEvent>, filter: string, offset: nat)
    requires Numbered(es, offset)
    ensures Ascending(Select(es, filter))
    ensures forall e :: e in Select(es, filter) ==> offset < e.revision <= offset + |es|
    ensures forall i :: 0 <= i < |Select(es, filter)| ==> offset < Select(es, filter)[i].revision <= offset + |es|
  {
    if es == [] {
    } else {
      SelectAscending(es[..|es| - 1], filter, offset);
    }
  }
}
