/** The shared cache of the read protocol as a history of cache operations: every
    run, however its readers interleave, leaves the cache some sequence of Gets and
    Sets would, so what LruHistory proves of histories holds of runs. */
module ProtocolHistory {
  import opened Wrappers
  import opened ReadProtocol
  import opened ProtocolSafety
  import L = LruSpec
  import H = LruHistory

  /** The cache operation a step makes: Read and the re-check inside a call look
      their track up, hit or miss; a finished render is stored. */
  function OpOf(cfg: Config, s: State, step: Step): seq<H.Op>
    requires Enabled(cfg, s, step)
  {
    match step
    case LookUp(r) => [H.GetOp(cfg.asked[r].k)]
    case Recheck(c) => [H.GetOp(s.calls[c].k)]
    case Publish(c) => [H.SetOp(s.calls[c].k, s.calls[c].phase.data)]
    case _ => []
  }

  function History(cfg: Config, steps: seq<Step>): seq<H.Op>
    requires Run(cfg, steps).Some?
  {
    if steps == [] then []
    else
      var before := steps[..|steps| - 1];
      History(cfg, before) + OpOf(cfg, Run(cfg, before).value, steps[|steps| - 1])
  }

  lemma HistoryStep(h: seq<H.Op>, op: H.Op, maxBytes: int)
    ensures H.Run(h + [op], maxBytes) == H.Step(H.Run(h, maxBytes), op, maxBytes)
  {
    assert (h + [op])[..|h|] == h;
  }

  lemma StepIsOp(cfg: Config, s: State, step: Step, h: seq<H.Op>)
    requires Enabled(cfg, s, step) && s.cache == H.Run(h, cfg.maxBytes)
    ensures Apply(cfg, s, step).cache == H.Run(h + OpOf(cfg, s, step), cfg.maxBytes)
  {
    match step
    case LookUp(r) => HistoryStep(h, H.GetOp(cfg.asked[r].k), cfg.maxBytes);
    case Recheck(c) => HistoryStep(h, H.GetOp(s.calls[c].k), cfg.maxBytes);
    case Publish(c) => HistoryStep(h, H.SetOp(s.calls[c].k, s.calls[c].phase.data), cfg.maxBytes);
    case _ => assert h + [] == h;
  }

  /** After every run the cache, order included, is what its history leaves. */
  lemma {:induction false} CacheIsHistory(cfg: Config, steps: seq<Step>)
    requires Run(cfg, steps).Some?
    ensures Run(cfg, steps).value.cache == H.Run(History(cfg, steps), cfg.maxBytes)
  {
    if steps != [] {
      var before := steps[..|steps| - 1];
      CacheIsHistory(cfg, before);
      StepIsOp(cfg, Run(cfg, before).value, steps[|steps| - 1], History(cfg, before));
    }
  }

  /** In every reachable state the shared cache is strictly ordered by the time of
      the last hit or store, and it fits its capacity or holds one entry. */
  lemma RunsKeepRecency(cfg: Config, steps: seq<Step>)
    requires Run(cfg, steps).Some?
    ensures var s, h := Run(cfg, steps).value.cache, History(cfg, steps);
            && L.Distinct(s) && H.Ordered(s, h, cfg.maxBytes)
            && (s == [] || |s| == 1 || L.Total(s) <= cfg.maxBytes)
  {
    CacheIsHistory(cfg, steps);
    H.OrderIsRecency(History(cfg, steps), cfg.maxBytes);
    H.CapacityKept(History(cfg, steps), cfg.maxBytes);
  }

  lemma NoOpNoChange(cfg: Config, s: State, step: Step)
    requires Enabled(cfg, s, step) && OpOf(cfg, s, step) == []
    ensures Apply(cfg, s, step).cache == s.cache
  {
  }

  /** A step of any run that loses a track stores another, and the lost track was
      hit or stored less recently than every track that stays. */
  lemma RunsEvictLeastRecent(cfg: Config, steps: seq<Step>, step: Step, gone: Key, kept: Key)
    requires Run(cfg, steps).Some? && Run(cfg, steps + [step]).Some?
    requires L.Has(Run(cfg, steps).value.cache, gone) && !L.Has(Run(cfg, steps + [step]).value.cache, gone)
    requires L.Has(Run(cfg, steps + [step]).value.cache, kept)
    ensures step.Publish?
    ensures var h := History(cfg, steps + [step]);
            H.LastTouch(h, cfg.maxBytes, gone) < H.LastTouch(h, cfg.maxBytes, kept)
  {
    assert (steps + [step])[..|steps|] == steps;
    var s := Run(cfg, steps).value;
    CacheIsHistory(cfg, steps);
    CacheIsHistory(cfg, steps + [step]);
    if OpOf(cfg, s, step) == [] {
      NoOpNoChange(cfg, s, step);
      assert false;
    }
    H.EvictsLeastRecent(History(cfg, steps), OpOf(cfg, s, step)[0], cfg.maxBytes, gone, kept);
  }

  /** A look-up that hits is answered with the requested slice of what was stored
      last for the track, wherever in the file it starts. */
  lemma HitsAreWhole(cfg: Config, steps: seq<Step>, r: nat)
    requires Run(cfg, steps).Some? && Enabled(cfg, Run(cfg, steps).value, LookUp(r))
    requires L.Has(Run(cfg, steps).value.cache, cfg.asked[r].k)
    ensures var q, t := cfg.asked[r], Apply(cfg, Run(cfg, steps).value, LookUp(r));
            var latest := H.LatestSet(History(cfg, steps), q.k);
            && latest.Some?
            && t.readers[r] == Answered(Data(SliceAt(latest.value, q.n, q.off)), FromCache)
  {
    CacheIsHistory(cfg, steps);
    H.HitIsLatestSet(History(cfg, steps), cfg.maxBytes, cfg.asked[r].k);
    L.LookupHas(Run(cfg, steps).value.cache, cfg.asked[r].k);
  }

  // ---- Probes --------------------------------------------------------------

  /** All reads of track k that are made start inside its header. */
  ghost predicate OnlyProbed(cfg: Config, k: Key) {
    forall r :: 0 <= r < |cfg.asked| && cfg.asked[r].k == k ==> cfg.asked[r].off < |cfg.header(k)|
  }

  ghost predicate Untouched(cfg: Config, s: State, k: Key) {
    && |s.readers| == |cfg.asked|
    && (forall c :: 0 <= c < |s.calls| ==> s.calls[c].k != k)
    && s.started[k] == 0
    && forall r :: 0 <= r < |s.readers| && cfg.asked[r].k == k ==> s.readers[r].Asked? || s.readers[r].Answered?
  }

  lemma StepLeavesUntouched(cfg: Config, s: State, step: Step, k: Key)
    requires Enabled(cfg, s, step) && OnlyProbed(cfg, k) && Untouched(cfg, s, k)
    ensures Untouched(cfg, Apply(cfg, s, step), k)
  {
    match step
    case LookUp(r) =>
    case Enter(r) =>
    case Collect(r) =>
    case _ => CallLeavesUntouched(cfg, s, step, k);
  }

  lemma CallLeavesUntouched(cfg: Config, s: State, step: Step, k: Key)
    requires Enabled(cfg, s, step) && !IsReaderStep(step) && Untouched(cfg, s, k)
    ensures Untouched(cfg, Apply(cfg, s, step), k)
  {
    CallStep(cfg, s, step);
  }

  /** Reads inside the header never start a render, however many race. */
  lemma {:induction false} ProbesNeverRender(cfg: Config, steps: seq<Step>, k: Key)
    requires Run(cfg, steps).Some? && OnlyProbed(cfg, k)
    ensures Untouched(cfg, Run(cfg, steps).value, k)
  {
    if steps != [] {
      ProbesNeverRender(cfg, steps[..|steps| - 1], k);
      StepLeavesUntouched(cfg, Run(cfg, steps[..|steps| - 1]).value, steps[|steps| - 1], k);
    }
  }
}
