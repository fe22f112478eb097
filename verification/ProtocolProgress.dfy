/** Every read is answered: no state is stuck while a read is open, and no run is
    longer than seven steps a read. */
module ProtocolProgress {
  import opened Wrappers
  import opened ReadProtocol
  import opened ProtocolSafety

  function ReaderRank(x: Reader): nat {
    match x
    case Asked => 7
    case Missed => 6
    case Waiting(_) => 1
    case Answered(_, _) => 0
  }

  function PhaseRank(p: Phase): nat {
    match p
    case Checking => 4
    case Rendering => 3
    case Storing(_) => 2
    case Finished(_) => 1
    case Returned(_) => 0
  }

  function ReadersRank(rs: seq<Reader>): nat {
    if rs == [] then 0 else ReaderRank(rs[0]) + ReadersRank(rs[1..])
  }

  function CallsRank(cs: seq<Call>): nat {
    if cs == [] then 0 else PhaseRank(cs[0].phase) + CallsRank(cs[1..])
  }

  function Rank(s: State): nat {
    ReadersRank(s.readers) + CallsRank(s.calls)
  }

  lemma {:induction false} ReadersRankUpdate(rs: seq<Reader>, r: nat, x: Reader)
    requires r < |rs|
    ensures ReadersRank(rs[r := x]) == ReadersRank(rs) - ReaderRank(rs[r]) + ReaderRank(x)
  {
    if r > 0 {
      ReadersRankUpdate(rs[1..], r - 1, x);
      assert rs[r := x][1..] == rs[1..][r - 1 := x];
    } else {
      assert rs[r := x][1..] == rs[1..];
    }
  }

  lemma {:induction false} CallsRankUpdate(cs: seq<Call>, c: nat, x: Call)
    requires c < |cs|
    ensures CallsRank(cs[c := x]) == CallsRank(cs) - PhaseRank(cs[c].phase) + PhaseRank(x.phase)
  {
    if c > 0 {
      CallsRankUpdate(cs[1..], c - 1, x);
      assert cs[c := x][1..] == cs[1..][c - 1 := x];
    } else {
      assert cs[c := x][1..] == cs[1..];
    }
  }

  lemma {:induction false} CallsRankAppend(cs: seq<Call>, x: Call)
    ensures CallsRank(cs + [x]) == CallsRank(cs) + PhaseRank(x.phase)
  {
    if cs == [] {
      assert cs + [x] == [x];
    } else {
      assert (cs + [x])[1..] == cs[1..] + [x];
      CallsRankAppend(cs[1..], x);
    }
  }

  lemma CallStepLowersPhase(cfg: Config, s: State, step: Step)
    requires Enabled(cfg, s, step) && !IsReaderStep(step)
    ensures var t := Apply(cfg, s, step);
            && step.c < |s.calls| == |t.calls|
            && PhaseRank(t.calls[step.c].phase) < PhaseRank(s.calls[step.c].phase)
  {
    match step
    case Recheck(c) =>
    case RenderFails(c) =>
    case RenderEnds(c, data) =>
    case Publish(c) =>
    case Complete(c) =>
  }

  /** Every step strictly lowers the rank. */
  lemma StepLowersRank(cfg: Config, s: State, step: Step)
    requires Enabled(cfg, s, step)
    ensures Rank(Apply(cfg, s, step)) < Rank(s)
  {
    var t := Apply(cfg, s, step);
    if step.Enter? {
      EnterLowersRank(cfg, s, step.r);
    } else if IsReaderStep(step) {
      ReaderStep(cfg, s, step);
      assert t.calls == s.calls;
      ReadersRankUpdate(s.readers, step.r, t.readers[step.r]);
    } else {
      CallStep(cfg, s, step);
      CallStepLowersPhase(cfg, s, step);
      CallsRankUpdate(s.calls, step.c, t.calls[step.c]);
    }
  }

  lemma EnterLowersRank(cfg: Config, s: State, r: nat)
    requires Enabled(cfg, s, Enter(r))
    ensures Rank(Apply(cfg, s, Enter(r))) < Rank(s)
  {
    var t := Apply(cfg, s, Enter(r));
    ReadersRankUpdate(s.readers, r, t.readers[r]);
    CallsRankAppend(s.calls, Call(FlightKey(cfg.asked[r].k), cfg.asked[r].k, Checking));
  }

  lemma {:induction false} InitialRank(n: nat)
    ensures ReadersRank(seq(n, _ => Asked)) == 7 * n
  {
    if n > 0 {
      InitialRank(n - 1);
      assert seq(n, _ => Asked)[1..] == seq(n - 1, _ => Asked);
    }
  }

  /** With finitely many reads every run is finite: seven steps a read at most. */
  lemma {:induction false} RunsAreBounded(cfg: Config, steps: seq<Step>)
    requires Run(cfg, steps).Some?
    ensures |steps| + Rank(Run(cfg, steps).value) <= 7 * |cfg.asked|
  {
    if steps == [] {
      InitialRank(|cfg.asked|);
    } else {
      RunsAreBounded(cfg, steps[..|steps| - 1]);
      StepLowersRank(cfg, Run(cfg, steps[..|steps| - 1]).value, steps[|steps| - 1]);
    }
  }

  /** A step that brings an open read forward: its own next action, or the next
      action of the call it waits for. */
  function Next(s: State, r: nat): Step
    requires r < |s.readers| && !s.readers[r].Answered?
    requires s.readers[r].Waiting? ==> s.readers[r].c < |s.calls|
  {
    match s.readers[r]
    case Asked => LookUp(r)
    case Missed => Enter(r)
    case Waiting(c) =>
      match s.calls[c].phase
      case Checking => Recheck(c)
      case Rendering => RenderFails(c)
      case Storing(_) => Publish(c)
      case Finished(_) => Complete(c)
      case Returned(_) => Collect(r)
  }

  /** No deadlock: while a read is open, some step can be taken. */
  lemma OpenReadCanMove(cfg: Config, steps: seq<Step>, r: nat)
    requires Run(cfg, steps).Some?
    requires r < |cfg.asked| && |Run(cfg, steps).value.readers| == |cfg.asked|
    requires !Run(cfg, steps).value.readers[r].Answered?
    ensures exists step :: Enabled(cfg, Run(cfg, steps).value, step)
  {
    ReachableSafe(cfg, steps);
    var s := Run(cfg, steps).value;
    assert ReaderMatches(cfg.asked[r], s.readers[r], s.calls);
    assert Enabled(cfg, s, Next(s, r));
  }

  /** So a run that cannot be continued has answered every read. */
  lemma FinishedRunsAnswerEverything(cfg: Config, steps: seq<Step>)
    requires Run(cfg, steps).Some?
    requires Ended(cfg, Run(cfg, steps).value)
    ensures |Run(cfg, steps).value.readers| == |cfg.asked|
    ensures forall r :: 0 <= r < |cfg.asked| ==> Run(cfg, steps).value.readers[r].Answered?
  {
    ReachableSafe(cfg, steps);
    forall r | 0 <= r < |cfg.asked| ensures Run(cfg, steps).value.readers[r].Answered? {
      if !Run(cfg, steps).value.readers[r].Answered? {
        OpenReadCanMove(cfg, steps, r);
      }
    }
  }

  ghost predicate Ended(cfg: Config, s: State) {
    forall step :: !Enabled(cfg, s, step)
  }

  lemma RunExtends(cfg: Config, steps: seq<Step>, step: Step)
    requires Run(cfg, steps).Some? && Enabled(cfg, Run(cfg, steps).value, step)
    ensures Run(cfg, steps + [step]) == Some(Apply(cfg, Run(cfg, steps).value, step))
  {
    assert (steps + [step])[..|steps|] == steps;
  }

  lemma SomeStep(cfg: Config, s: State) returns (step: Step)
    requires !Ended(cfg, s)
    ensures Enabled(cfg, s, step)
  {
    step :| Enabled(cfg, s, step);
  }

  /** And every run can be continued to such an end. */
  lemma {:induction false} EveryRunCanFinish(cfg: Config, steps: seq<Step>) returns (full: seq<Step>)
    requires Run(cfg, steps).Some?
    ensures steps <= full && Run(cfg, full).Some? && Ended(cfg, Run(cfg, full).value)
    decreases 7 * |cfg.asked| - |steps|
  {
    if Ended(cfg, Run(cfg, steps).value) {
      full := steps;
    } else {
      var step := SomeStep(cfg, Run(cfg, steps).value);
      RunExtends(cfg, steps, step);
      RunsAreBounded(cfg, steps + [step]);
      full := EveryRunCanFinish(cfg, steps + [step]);
    }
  }

  // ---- Progress without failures -------------------------------------------

  ghost predicate CanRender(cfg: Config, k: Key) {
    exists data :: cfg.renders(k, data)
  }

  /** Every track can be rendered. */
  ghost predicate AllRender(cfg: Config) {
    forall k :: CanRender(cfg, k)
  }

  /** Where some step can be taken, one that is not a failing render can. */
  lemma GoodStep(cfg: Config, s: State) returns (step: Step)
    requires AllRender(cfg) && !Ended(cfg, s)
    ensures Enabled(cfg, s, step) && !step.RenderFails?
  {
    step := SomeStep(cfg, s);
    if step.RenderFails? {
      assert CanRender(cfg, s.calls[step.c].k);
      var data :| cfg.renders(s.calls[step.c].k, data);
      step := RenderEnds(step.c, data);
    }
  }

  /** An open read does not depend on a failure to move on. */
  lemma OpenReadCanSucceed(cfg: Config, steps: seq<Step>, r: nat)
    requires Run(cfg, steps).Some? && AllRender(cfg)
    requires r < |cfg.asked| && |Run(cfg, steps).value.readers| == |cfg.asked|
    requires !Run(cfg, steps).value.readers[r].Answered?
    ensures exists step :: Enabled(cfg, Run(cfg, steps).value, step) && !step.RenderFails?
  {
    OpenReadCanMove(cfg, steps, r);
    var step := GoodStep(cfg, Run(cfg, steps).value);
  }

  /** Every run can be continued, without another failing render, until every read
      is answered. */
  lemma {:induction false} EveryRunCanSucceed(cfg: Config, steps: seq<Step>) returns (full: seq<Step>)
    requires Run(cfg, steps).Some? && AllRender(cfg)
    ensures steps <= full && Run(cfg, full).Some? && Ended(cfg, Run(cfg, full).value)
    ensures Run(cfg, full).value.failed == Run(cfg, steps).value.failed
    decreases 7 * |cfg.asked| - |steps|
  {
    if Ended(cfg, Run(cfg, steps).value) {
      full := steps;
    } else {
      var step := GoodStep(cfg, Run(cfg, steps).value);
      RunExtends(cfg, steps, step);
      RunsAreBounded(cfg, steps + [step]);
      full := EveryRunCanSucceed(cfg, steps + [step]);
    }
  }
}
