/** A read with no competition is a run of the read protocol, so what TrackFile.Read
    does alone is one of the behaviours the protocol theorems are about; and a run
    of such reads is the trace the stack-inclusion theorem is about. */
module SoloRuns {
  import opened Bytes
  import opened Wrappers
  import opened ReadProtocol
  import opened TrackFiles
  import StackInclusion
  import L = LruSpec

  /** The steps from s, front to back. */
  function RunFrom(cfg: Config, s: State, steps: seq<Step>): Option<State>
    decreases |steps|
  {
    if steps == [] then Some(s)
    else if Enabled(cfg, s, steps[0]) then RunFrom(cfg, Apply(cfg, s, steps[0]), steps[1..])
    else None
  }

  lemma FirstStep(cfg: Config, s: State, step: Step, rest: seq<Step>)
    requires Enabled(cfg, s, step)
    ensures RunFrom(cfg, s, [step] + rest) == RunFrom(cfg, Apply(cfg, s, step), rest)
  {
    assert ([step] + rest)[1..] == rest;
  }

  /** Running on from a reachable state is a run. */
  lemma {:induction false} RunThenRunFrom(cfg: Config, before: seq<Step>, steps: seq<Step>)
    requires Run(cfg, before).Some?
    ensures Run(cfg, before + steps) == RunFrom(cfg, Run(cfg, before).value, steps)
    decreases |steps|
  {
    if steps == [] {
      assert before + steps == before;
    } else {
      var next := before + [steps[0]];
      assert next[..|next| - 1] == before && before + steps == next + steps[1..];
      if Enabled(cfg, Run(cfg, before).value, steps[0]) {
        RunThenRunFrom(cfg, next, steps[1..]);
      } else {
        NoneStays(cfg, next, steps[1..]);
      }
    }
  }

  lemma {:induction false} NoneStays(cfg: Config, a: seq<Step>, b: seq<Step>)
    requires Run(cfg, a).None?
    ensures Run(cfg, a + b).None?
  {
    if b == [] {
      assert a + b == a;
    } else {
      NoneStays(cfg, a, b[..|b| - 1]);
      assert (a + b)[..|a + b| - 1] == a + b[..|b| - 1];
    }
  }

  ghost predicate AnsweredBy(s: State, t: State, r: nat, answer: (Reply, L.Lru)) {
    && r < |s.readers| == |t.readers|
    && t.readers[r].Answered? && t.readers[r].reply == answer.0
    && (forall i :: 0 <= i < |s.readers| && i != r ==> t.readers[i] == s.readers[i])
    && t.cache == answer.1 && t.flights == s.flights
  }

  /** From the moment a call is entered: recheck, render, publish, return. */
  lemma SoloCall(cfg: Config, s: State, r: nat, result: Outcome) returns (steps: seq<Step>, t: State)
    requires Enabled(cfg, s, Enter(r)) && FlightKey(cfg.asked[r].k) !in s.flights
    requires L.Lookup(s.cache, cfg.asked[r].k).None?
    requires result.Rendered? ==> cfg.renders(cfg.asked[r].k, result.data)
    ensures RunFrom(cfg, s, steps) == Some(t)
    ensures AnsweredBy(s, t, r,
              (ReplyOf(result, cfg.asked[r]),
               if result.Failed? then s.cache
               else L.Store(s.cache, cfg.asked[r].k, result.data, cfg.maxBytes)))
  {
    var c := |s.calls|;
    var s1 := Apply(cfg, s, Enter(r));
    var s2 := Apply(cfg, s1, Recheck(c));
    var s3, middle := RenderAndPublish(cfg, s2, c, result);
    var s4 := Apply(cfg, s3, Complete(c));
    t := Apply(cfg, s4, Collect(r));
    assert t.flights == s.flights;
    steps := [Enter(r)] + ([Recheck(c)] + (middle + ([Complete(c)] + ([Collect(r)] + []))));
    FirstStep(cfg, s4, Collect(r), []);
    FirstStep(cfg, s3, Complete(c), [Collect(r)] + []);
    RunFromAppend(cfg, s2, middle, [Complete(c)] + ([Collect(r)] + []));
    FirstStep(cfg, s1, Recheck(c), middle + ([Complete(c)] + ([Collect(r)] + [])));
    FirstStep(cfg, s, Enter(r), [Recheck(c)] + (middle + ([Complete(c)] + ([Collect(r)] + []))));
  }

  lemma {:induction false} RunFromAppend(cfg: Config, s: State, a: seq<Step>, b: seq<Step>)
    requires RunFrom(cfg, s, a).Some?
    ensures RunFrom(cfg, s, a + b) == RunFrom(cfg, RunFrom(cfg, s, a).value, b)
    decreases |a|
  {
    if a == [] {
      assert a + b == b;
    } else {
      assert (a + b)[0] == a[0] && (a + b)[1..] == a[1..] + b;
      RunFromAppend(cfg, Apply(cfg, s, a[0]), a[1..], b);
    }
  }

  lemma RenderAndPublish(cfg: Config, s: State, c: nat, result: Outcome) returns (t: State, steps: seq<Step>)
    requires c < |s.calls| && s.calls[c].phase.Rendering?
    requires result.Rendered? ==> cfg.renders(s.calls[c].k, result.data)
    ensures RunFrom(cfg, s, steps) == Some(t)
    ensures t.readers == s.readers && t.flights == s.flights
    ensures t.calls == s.calls[c := s.calls[c].(phase := Finished(result))]
    ensures t.cache == if result.Failed? then s.cache
                       else L.Store(s.cache, s.calls[c].k, result.data, cfg.maxBytes)
  {
    match result
    case Failed =>
      t := Apply(cfg, s, RenderFails(c));
      steps := [RenderFails(c)] + [];
      FirstStep(cfg, s, RenderFails(c), []);
    case Rendered(data) =>
      var s1 := Apply(cfg, s, RenderEnds(c, data));
      t := Apply(cfg, s1, Publish(c));
      assert t.calls == s.calls[c := s.calls[c].(phase := Finished(result))];
      steps := [RenderEnds(c, data)] + ([Publish(c)] + []);
      FirstStep(cfg, s1, Publish(c), []);
      FirstStep(cfg, s, RenderEnds(c, data), [Publish(c)] + []);
  }

  /** TrackFile.Read alone, step by step. */
  lemma SoloReadIsARun(cfg: Config, s: State, r: nat, result: Outcome) returns (steps: seq<Step>, t: State)
    requires Enabled(cfg, s, LookUp(r)) && FlightKey(cfg.asked[r].k) !in s.flights
    requires result.Rendered? ==> cfg.renders(cfg.asked[r].k, result.data)
    ensures RunFrom(cfg, s, steps) == Some(t)
    ensures AnsweredBy(s, t, r, SoloRead(s.cache, cfg.maxBytes, cfg.header(cfg.asked[r].k), cfg.asked[r], result))
  {
    var s1 := Apply(cfg, s, LookUp(r));
    if s1.readers[r].Answered? {
      steps, t := [LookUp(r)] + [], s1;
      FirstStep(cfg, s, LookUp(r), []);
    } else {
      var rest;
      rest, t := SoloCall(cfg, s1, r, result);
      steps := [LookUp(r)] + rest;
      FirstStep(cfg, s, LookUp(r), rest);
    }
  }

  /** What a read does to the cache: past the header it may render, inside it only
      promotes. */
  function VisitOf(q: Read, header: seq<byte>): StackInclusion.Visit {
    if q.off < |header| then StackInclusion.Hdr(q.k) else StackInclusion.Pcm(q.k)
  }

  /** A solo read of a deterministic track is one visit of the stack-inclusion
      trace. */
  lemma SoloReadIsVisit(cache: L.Lru, maxBytes: int, header: seq<byte>, q: Read, wav: L.Key -> seq<byte>)
    ensures SoloRead(cache, maxBytes, header, q, Rendered(wav(q.k))).1
            == StackInclusion.Visited(cache, VisitOf(q, header), wav, maxBytes)
  {
  }
}
