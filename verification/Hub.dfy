/** The watch hub's mutable parts: waiter buffers, the waiter list and the
    broadcast loops (src/watch/watch_hub.h, src/watch/watch_hub.cpp). */
module Hub {
  import opened Records

  const MAX_WATCH_EVENTS: nat := 1024

  datatype Buffer = Buffer(events: seq<WatchEvent>, overflow: bool)

  /** One waiter's share of a broadcast: push the matching events; a full buffer
      is dropped and marked, and the rest of this batch is skipped. */
  function PushAll(b: Buffer, filter: string, es: seq<WatchEvent>, limit: nat): Buffer
    decreases es
  {
    if es == [] then b
    else if !Matches(filter, es[0]) then PushAll(b, filter, es[1..], limit)
    else if |b.events| >= limit then Buffer([], true)
    else PushAll(b.(events := b.events + [es[0]]), filter, es[1..], limit)
  }

  /** A push is all or nothing: the buffer gains every matching event while they
      fit, and is emptied and flagged as soon as they do not. */
  lemma {:induction false} PushAllOrNothing(b: Buffer, filter: string, es: seq<WatchEvent>, limit: nat)
    requires |b.events| <= limit
    ensures var r := PushAll(b, filter, es, limit);
            && (|b.events| + |Select(es, filter)| <= limit ==>
                  r == Buffer(b.events + Select(es, filter), b.overflow))
            && (|b.events| + |Select(es, filter)| > limit ==> r == Buffer([], true))
            && |r.events| <= limit
    decreases es
  {
    if es == [] {
    } else {
      var e, rest := es[0], es[1..];
      assert es == [e] + rest;
      SelectCons(e, rest, filter);
      if !Matches(filter, e) {
        PushAllOrNothing(b, filter, rest, limit);
      } else if |b.events| < limit {
        Assoc(b.events, [e], Select(rest, filter));
        PushAllOrNothing(b.(events := b.events + [e]), filter, rest, limit);
      }
    }
  }

  lemma SelectCons(e: WatchEvent, rest: seq<WatchEvent>, filter: string)
    ensures Select([e] + rest, filter) == if Matches(filter, e) then [e] + Select(rest, filter) else Select(rest, filter)
  {
    SelectConcat([e], rest, filter);
    SelectOne(e, filter);
    assert [] + Select(rest, filter) == Select(rest, filter);
  }

  lemma PushedOverflow(b: Buffer, filter: string, es: seq<WatchEvent>, limit: nat)
    ensures b.overflow ==> PushAll(b, filter, es, limit).overflow
    decreases es
  {
  }

  /** r is b with every matching event of es added if they all fit, and flagged as
      overflowed otherwise. */
  ghost predicate Takes(b: Buffer, r: Buffer, filter: string, limit: nat, es: seq<WatchEvent>) {
    var news := Select(es, filter);
    && |r.events| <= limit
    && (|b.events| + |news| <= limit ==> r == Buffer(b.events + news, b.overflow))
    && (|b.events| + |news| > limit || b.overflow ==> r.overflow)
  }

  lemma TakesMore(b: Buffer, r: Buffer, filter: string, limit: nat, before: seq<WatchEvent>, es: seq<WatchEvent>)
    requires Takes(b, r, filter, limit, before)
    ensures Takes(b, PushAll(r, filter, es, limit), filter, limit, before + es)
  {
    SelectConcat(before, es, filter);
    Assoc(b.events, Select(before, filter), Select(es, filter));
    PushAllOrNothing(r, filter, es, limit);
    PushedOverflow(r, filter, es, limit);
  }

  lemma SelectOne(e: WatchEvent, filter: string)
    ensures Select([e], filter) == if Matches(filter, e) then [e] else []
  {
    assert [e][..0] == [];
    assert Select([], filter) == [];
  }

  class Waiter {
    const keyFilter: string
    var events: seq<WatchEvent>
    var overflow: bool

    constructor (filter: string)
      ensures keyFilter == filter && events == [] && !overflow
    {
      keyFilter, events, overflow := filter, [], false;
    }

    function State(): Buffer reads this { Buffer(events, overflow) }

    /** The inner loop of Broadcast, under the waiter's mutex. */
    method Push(es: seq<WatchEvent>, limit: nat)
      modifies this
      ensures State() == PushAll(old(State()), keyFilter, es, limit)
    {
      var i := 0;
      while i < |es|
        invariant 0 <= i <= |es|
        invariant PushAll(State(), keyFilter, es[i..], limit) == PushAll(old(State()), keyFilter, es, limit)
      {
        assert es[i..][0] == es[i] && es[i..][1..] == es[i + 1..];
        if Matches(keyFilter, es[i]) {
          if |events| >= limit {
            overflow := true;
            events := [];
            return;
          }
          events := events + [es[i]];
        }
        i := i + 1;
      }
    }
  }

  function Without<T(==)>(s: seq<T>, x: T): (r: seq<T>)
    ensures forall i :: 0 <= i < |r| ==> r[i] in s && r[i] != x
    ensures forall i :: 0 <= i < |s| && s[i] != x ==> s[i] in r
  {
    if s == [] then []
    else if s[0] == x then Without(s[1..], x)
    else [s[0]] + Without(s[1..], x)
  }

  /** The list Unregister still aims at from position i. */
  function Pending<T(==)>(s: seq<T>, i: nat, x: T): seq<T>
    requires i <= |s|
  {
    s[..i] + Without(s[i..], x)
  }

  lemma EraseStep<T>(s: seq<T>, i: nat, x: T)
    requires i < |s| && s[i] == x
    ensures Pending(s[..i] + s[i + 1..], i, x) == Pending(s, i, x)
  {
    assert s[i..][0] == s[i] && s[i..][1..] == s[i + 1..];
    var t := s[..i] + s[i + 1..];
    assert t[..i] == s[..i] && t[i..] == s[i + 1..];
  }

  lemma KeepStep<T>(s: seq<T>, i: nat, x: T)
    requires i < |s| && s[i] != x
    ensures Pending(s, i + 1, x) == Pending(s, i, x)
  {
    assert s[i..][0] == s[i] && s[i..][1..] == s[i + 1..];
    assert s[..i + 1] == s[..i] + [s[i]];
  }

  predicate Distinct<T(==)>(s: seq<T>) {
    forall i, j :: 0 <= i < j < |s| ==> s[i] != s[j]
  }

  lemma {:induction false} WithoutDistinct<T>(s: seq<T>, x: T)
    requires Distinct(s)
    ensures Distinct(Without(s, x))
  {
    if s == [] {
    } else {
      WithoutDistinct(s[1..], x);
      assert s[0] !in s[1..];
    }
  }

  class WatchHub {
    const maxEvents: nat
    var waiters: seq<Waiter>

    constructor (max: nat)
      ensures maxEvents == (if max > 0 then max else 1024) && maxEvents > 0
      ensures waiters == []
    {
      maxEvents := if max > 0 then max else MAX_WATCH_EVENTS;
      waiters := [];
    }

    method Register(w: Waiter)
      requires Distinct(waiters) && w !in waiters
      modifies this`waiters
      ensures waiters == old(waiters) + [w] && Distinct(waiters)
    {
      waiters := waiters + [w];
    }

    /** Erases every entry for w while walking the list. */
    method Unregister(w: Waiter)
      requires Distinct(waiters)
      modifies this`waiters
      ensures waiters == Without(old(waiters), w) && Distinct(waiters)
    {
      var i := 0;
      assert waiters[0..] == waiters;
      while i < |waiters|
        invariant 0 <= i <= |waiters|
        invariant Pending(waiters, i, w) == Without(old(waiters), w)
        decreases |waiters| - i
      {
        if waiters[i] == w {
          EraseStep(waiters, i, w);
          waiters := waiters[..i] + waiters[i + 1..];
        } else {
          KeepStep(waiters, i, w);
          i := i + 1;
        }
      }
      assert Pending(waiters, i, w) == waiters;
      WithoutDistinct(old(waiters), w);
    }

    /** Uninterrupted: the list is copied, then every waiter on the copy gets its push. */
    method Broadcast(es: seq<WatchEvent>)
      requires Distinct(waiters)
      modifies waiters
      ensures forall w :: w in waiters ==>
                w.State() == PushAll(old(w.State()), w.keyFilter, es, maxEvents)
    {
      if es == [] {
        return;
      }
      var snapshot := waiters;
      var i := 0;
      while i < |snapshot|
        invariant 0 <= i <= |snapshot|
        invariant forall j :: 0 <= j < i ==>
          snapshot[j].State() == PushAll(old(snapshot[j].State()), snapshot[j].keyFilter, es, maxEvents)
        invariant forall j :: i <= j < |snapshot| ==> snapshot[j].State() == old(snapshot[j].State())
      {
        snapshot[i].Push(es, maxEvents);
        i := i + 1;
      }
    }
  }
}
