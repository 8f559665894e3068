/** Without snapshots a node's store and stream are those of a single store's run, so
    what History says of such runs holds on every node, whatever its watchers do
    (src/raft/state_machine.cpp, src/store/store.cpp). */
module NodeHistory {
  import opened Records
  import opened Mvcc
  import opened History
  import opened WatchNode
  import opened WatchTheorems
  import opened Schedules

  /** The steps of the schedule that touch the store. */
  function ActionsOf(steps: seq<Step>): seq<Action> {
    if steps == [] then []
    else
      var last := steps[|steps| - 1];
      ActionsOf(steps[..|steps| - 1]) +
      match last
      case ApplyCmd(cmd, ok) => [Do(cmd, ok)]
      case ScanHistory(keep) => [Scan(keep)]
      case EraseHistory(ok) => [Erase(ok)]
      case _ => []
  }

  function Own(n: Node): Local { Local(n.store, n.plan, n.stream) }

  lemma OwnStep(n: Node, st: Step)
    requires Enabled(n, st) && !st.Install?
    ensures Own(Next(n, st)) ==
            match st
            case ApplyCmd(cmd, ok) => LocalStep(Own(n), Do(cmd, ok))
            case ScanHistory(keep) => LocalStep(Own(n), Scan(keep))
            case EraseHistory(ok) => LocalStep(Own(n), Erase(ok))
            case _ => Own(n)
  {
  }

  /** A node that installs no snapshot holds the store and the stream of the run of its
      commands and compactions. */
  lemma {:induction false} NodeIsLocalRun(limit: nat, steps: seq<Step>, n: Node)
    requires Reached(limit, steps, n) && NoInstall(steps)
    ensures Own(n) == LocalRun(ActionsOf(steps))
  {
    if steps == [] {
    } else {
      var pre, st := steps[..|steps| - 1], steps[|steps| - 1];
      var m := Exec(NewNode(limit), pre);
      assert NoInstall(pre) && st in steps;
      NodeIsLocalRun(limit, pre, m);
      OwnStep(m, st);
      var more := ActionsOf(steps)[|ActionsOf(pre)|..];
      assert ActionsOf(steps) == ActionsOf(pre) + more;
      if more == [] {
        assert ActionsOf(steps) == ActionsOf(pre);
      } else {
        LaterState(ActionsOf(pre), more[0]);
        assert more == [more[0]];
      }
    }
  }

  // ------------------------------------------------ runs of single stores

  function Dos(cmds: seq<RaftCmd>): (actions: seq<Action>)
    ensures |actions| == |cmds|
  {
    seq(|cmds|, i requires 0 <= i < |cmds| => Do(cmds[i], true))
  }

  lemma DosSnoc(before: seq<Action>, pre: seq<RaftCmd>, c: RaftCmd)
    ensures before + Dos(pre + [c]) == before + Dos(pre) + [Do(c, true)]
    ensures before + Dos([]) == before
  {
  }

  lemma DoOne(l: Local, pre: seq<RaftCmd>, c: RaftCmd)
    ensures LocalStep(Local(Final(l.s, pre), l.plan, l.stream + Events(l.s, pre)), Do(c, true)) ==
            Local(Final(l.s, pre + [c]), l.plan, l.stream + Events(l.s, pre + [c]))
  {
    assert (pre + [c])[..|pre|] == pre;
    Assoc(l.stream, Events(l.s, pre), Result(Final(l.s, pre), c).events);
  }

  /** Doing commands whose writes succeed is running them. */
  lemma {:induction false} DoingRuns(before: seq<Action>, cmds: seq<RaftCmd>, l: Local)
    requires l == LocalRun(before)
    ensures LocalRun(before + Dos(cmds)) == Local(Final(l.s, cmds), l.plan, l.stream + Events(l.s, cmds))
  {
    if cmds == [] {
      DosSnoc(before, [], Unknown);
      assert l.stream + [] == l.stream;
    } else {
      var pre, c := cmds[..|cmds| - 1], cmds[|cmds| - 1];
      DoingRuns(before, pre, l);
      assert cmds == pre + [c];
      DosSnoc(before, pre, c);
      LaterState(before + Dos(pre), Do(c, true));
      DoOne(l, pre, c);
    }
  }

  lemma PhasesRun(before: seq<Action>, keep: int, cmds: seq<RaftCmd>, s: State, t: State, u: State)
    requires s == LocalRun(before).s && LocalRun(before).plan.None?
    requires t == LocalRun(before + [Scan(keep)] + Dos(cmds)).s
    requires u == LocalRun(before + [Scan(keep)] + Dos(cmds) + [Erase(true)]).s
    ensures t == Final(s, cmds) && u == Compact(t, Victims(s, keep))
  {
    LaterState(before, Scan(keep));
    DoingRuns(before + [Scan(keep)], cmds, LocalRun(before + [Scan(keep)]));
    LaterState(before + [Scan(keep)] + Dos(cmds), Erase(true));
  }

  /** A compaction inside a run: the records erased are exactly those that were
      outside their key's newest max(n,1) when the scan saw them; whatever commands ran
      in between lose nothing. */
  lemma CompactionInRun(before: seq<Action>, keep: int, cmds: seq<RaftCmd>, s: State, t: State, u: State)
    requires s == LocalRun(before).s && LocalRun(before).plan.None?
    requires t == LocalRun(before + [Scan(keep)] + Dos(cmds)).s
    requires u == LocalRun(before + [Scan(keep)] + Dos(cmds) + [Erase(true)]).s
    ensures t == Final(s, cmds) && u.main == t.main && u.revision == t.revision
    ensures forall r :: r in u.hist ==> r in t.hist && u.hist[r] == t.hist[r]
    ensures forall r :: r in t.hist && r !in u.hist <==>
              r in s.hist && Newer(s.hist, s.hist[r].key, r, s.revision) >= if keep < 1 then 1 else keep
  {
    LocalRunInv(before);
    PhasesRun(before, keep, cmds, s, t, u);
    TwoPhaseCompaction(s, cmds, keep);
  }
}
