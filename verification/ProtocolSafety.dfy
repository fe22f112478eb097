/** What every interleaving of readers keeps. */
module ProtocolSafety {
  import opened Bytes
  import opened Wrappers
  import opened ReadProtocol
  import L = LruSpec

  // ---- The two kinds of steps ----------------------------------------------

  predicate IsReaderStep(step: Step) {
    step.LookUp? || step.Enter? || step.Collect?
  }

  /** A call's step changes that call's phase and no reader. */
  lemma CallStep(cfg: Config, s: State, step: Step)
    requires Enabled(cfg, s, step) && !IsReaderStep(step)
    ensures var t := Apply(cfg, s, step);
            && t.readers == s.readers && step.c < |s.calls| == |t.calls|
            && t.calls == s.calls[step.c := s.calls[step.c].(phase := t.calls[step.c].phase)]
            && !s.calls[step.c].phase.Returned?
  {
    match step
    case Recheck(c) =>
    case RenderFails(c) =>
    case RenderEnds(c, data) =>
    case Publish(c) =>
    case Complete(c) =>
  }

  /** A reader's step changes that reader, and at most adds a call. */
  lemma ReaderStep(cfg: Config, s: State, step: Step)
    requires Enabled(cfg, s, step) && IsReaderStep(step)
    ensures var t := Apply(cfg, s, step);
            && step.r < |s.readers| == |t.readers|
            && t.readers == s.readers[step.r := t.readers[step.r]]
            && |s.calls| <= |t.calls| && t.calls[..|s.calls|] == s.calls
            && (forall c :: |s.calls| <= c < |t.calls| ==> t.calls[c].phase.Checking?)
            && t.failed == s.failed
  {
    match step
    case LookUp(r) =>
    case Enter(r) =>
    case Collect(r) =>
  }

  // ---- Calls and flights ---------------------------------------------------

  /** The registered calls are exactly the calls that have not returned. */
  ghost predicate FlightsMatch(calls: seq<Call>, flights: map<string, nat>) {
    && (forall name :: name in flights ==>
          && flights[name] < |calls|
          && calls[flights[name]].name == name
          && !calls[flights[name]].phase.Returned?)
    && (forall c :: 0 <= c < |calls| ==>
          && calls[c].name == FlightKey(calls[c].k)
          && (!calls[c].phase.Returned? ==> calls[c].name in flights && flights[calls[c].name] == c))
  }

  lemma PhaseKeepsFlights(calls: seq<Call>, flights: map<string, nat>, c: nat, p: Phase)
    requires FlightsMatch(calls, flights) && c < |calls|
    requires !calls[c].phase.Returned? && !p.Returned?
    ensures FlightsMatch(calls[c := calls[c].(phase := p)], flights)
  {
  }

  lemma ReturnKeepsFlights(calls: seq<Call>, flights: map<string, nat>, c: nat, result: Outcome)
    requires FlightsMatch(calls, flights) && c < |calls| && !calls[c].phase.Returned?
    ensures FlightsMatch(calls[c := calls[c].(phase := Returned(result))], flights - {calls[c].name})
  {
  }

  lemma NewCallKeepsFlights(calls: seq<Call>, flights: map<string, nat>, k: Key)
    requires FlightsMatch(calls, flights) && FlightKey(k) !in flights
    ensures FlightsMatch(calls + [Call(FlightKey(k), k, Checking)], flights[FlightKey(k) := |calls|])
  {
  }

  lemma FlightsMatchKept(cfg: Config, s: State, step: Step)
    requires Enabled(cfg, s, step) && FlightsMatch(s.calls, s.flights)
    ensures var t := Apply(cfg, s, step);
            FlightsMatch(t.calls, t.flights)
  {
    var t := Apply(cfg, s, step);
    match step
    case LookUp(r) =>
    case Collect(r) =>
    case Enter(r) =>
      if FlightKey(cfg.asked[r].k) !in s.flights {
        NewCallKeepsFlights(s.calls, s.flights, cfg.asked[r].k);
      }
    case Complete(c) =>
      ReturnKeepsFlights(s.calls, s.flights, c, s.calls[c].phase.result);
    case Recheck(c) => PhaseKeepsFlights(s.calls, s.flights, c, t.calls[c].phase);
    case RenderFails(c) => PhaseKeepsFlights(s.calls, s.flights, c, t.calls[c].phase);
    case RenderEnds(c, data) => PhaseKeepsFlights(s.calls, s.flights, c, t.calls[c].phase);
    case Publish(c) => PhaseKeepsFlights(s.calls, s.flights, c, t.calls[c].phase);
  }

  /** At most one call for a track is unfinished at any time. */
  lemma OneLiveCall(calls: seq<Call>, flights: map<string, nat>, c: nat, d: nat)
    requires FlightsMatch(calls, flights) && c < |calls| && d < |calls|
    requires calls[c].k == calls[d].k
    requires !calls[c].phase.Returned? && !calls[d].phase.Returned?
    ensures c == d
  {
    assert flights[calls[c].name] == c;
  }

  // ---- Waiters -------------------------------------------------------------

  /** A waiter waits for a call about its own track, and an answer that came from
      a call is that call's outcome. */
  ghost predicate ReaderMatches(q: Read, x: Reader, calls: seq<Call>) {
    match x
    case Waiting(c) => c < |calls| && calls[c].k == q.k
    case Answered(reply, via) =>
      via.FromCall? ==>
        && via.c < |calls| && calls[via.c].k == q.k && calls[via.c].phase.Returned?
        && reply == ReplyOf(calls[via.c].phase.result, q)
    case _ => true
  }

  ghost predicate WaitersMatch(cfg: Config, s: State) {
    && |s.readers| == |cfg.asked|
    && forall r :: 0 <= r < |s.readers| ==> ReaderMatches(cfg.asked[r], s.readers[r], s.calls)
  }

  lemma ReaderKept(q: Read, x: Reader, calls: seq<Call>, after: seq<Call>)
    requires ReaderMatches(q, x, calls) && |calls| <= |after|
    requires forall c :: 0 <= c < |calls| ==>
               && after[c].k == calls[c].k
               && (calls[c].phase.Returned? ==> after[c].phase == calls[c].phase)
    ensures ReaderMatches(q, x, after)
  {
  }

  /** Calls keep their track, and a returned call never changes again. */
  lemma CallsPersist(cfg: Config, s: State, step: Step)
    requires Enabled(cfg, s, step)
    ensures var t := Apply(cfg, s, step);
            && |s.calls| <= |t.calls| && |t.readers| == |s.readers|
            && forall c :: 0 <= c < |s.calls| ==>
                 && t.calls[c].k == s.calls[c].k
                 && (s.calls[c].phase.Returned? ==> t.calls[c].phase == s.calls[c].phase)
  {
    var t := Apply(cfg, s, step);
    if IsReaderStep(step) {
      ReaderStep(cfg, s, step);
      assert forall c :: 0 <= c < |s.calls| ==> t.calls[c] == t.calls[..|s.calls|][c];
    } else {
      CallStep(cfg, s, step);
    }
  }

  lemma WaitersMatchKept(cfg: Config, s: State, step: Step)
    requires Enabled(cfg, s, step) && FlightsMatch(s.calls, s.flights) && WaitersMatch(cfg, s)
    ensures WaitersMatch(cfg, Apply(cfg, s, step))
  {
    var t := Apply(cfg, s, step);
    CallsPersist(cfg, s, step);
    forall r | 0 <= r < |s.readers| ensures ReaderMatches(cfg.asked[r], t.readers[r], t.calls) {
      ReaderKept(cfg.asked[r], s.readers[r], s.calls, t.calls);
      MovedReader(cfg, s, step, r);
    }
  }

  lemma MovedReader(cfg: Config, s: State, step: Step, r: nat)
    requires Enabled(cfg, s, step) && FlightsMatch(s.calls, s.flights) && WaitersMatch(cfg, s)
    requires r < |s.readers|
    ensures var t := Apply(cfg, s, step);
            t.readers[r] != s.readers[r] ==> ReaderMatches(cfg.asked[r], t.readers[r], t.calls)
  {
    if step == Enter(r) {
      var k := cfg.asked[r].k;
      if FlightKey(k) in s.flights {
        FlightKeyInjective(k, s.calls[s.flights[FlightKey(k)]].k);
      }
    } else if step == Collect(r) {
      assert ReaderMatches(cfg.asked[r], s.readers[r], s.calls);
    }
  }

  // ---- The cache -----------------------------------------------------------

  /** Busy: between deciding to render and storing the result. */
  predicate Busy(p: Phase) {
    p.Rendering? || p.Storing?
  }

  /** A track being rendered is not cached, so Set never replaces an entry. */
  ghost predicate BusyNotCached(s: State) {
    && L.Distinct(s.cache)
    && forall c :: 0 <= c < |s.calls| && Busy(s.calls[c].phase) ==> !L.Has(s.cache, s.calls[c].k)
  }

  lemma TouchKeepsKeys(s: L.Lru, k: Key)
    requires L.Distinct(s)
    ensures L.Distinct(L.Touch(s, k))
    ensures forall q :: L.Has(L.Touch(s, k), q) <==> L.Has(s, q)
  {
    L.TouchKeys(s, k, k);
    forall q ensures L.Has(L.Touch(s, k), q) <==> L.Has(s, q) {
      L.TouchKeys(s, k, q);
    }
  }

  /** A step that is not Publish leaves the same keys cached. */
  lemma CacheKeysKept(cfg: Config, s: State, step: Step)
    requires Enabled(cfg, s, step) && !step.Publish? && L.Distinct(s.cache)
    ensures var t := Apply(cfg, s, step);
            L.Distinct(t.cache) && forall q :: L.Has(t.cache, q) <==> L.Has(s.cache, q)
  {
    match step
    case LookUp(r) => TouchKeepsKeys(s.cache, cfg.asked[r].k);
    case Recheck(c) => TouchKeepsKeys(s.cache, s.calls[c].k);
    case _ =>
  }

  lemma PublishKeepsOthersOut(cfg: Config, s: State, c: nat, d: nat)
    requires Enabled(cfg, s, Publish(c)) && FlightsMatch(s.calls, s.flights) && BusyNotCached(s)
    requires d < |s.calls| && d != c && Busy(s.calls[d].phase)
    ensures !L.Has(L.Store(s.cache, s.calls[c].k, s.calls[c].phase.data, cfg.maxBytes), s.calls[d].k)
  {
    L.StoreKeys(s.cache, s.calls[c].k, s.calls[c].phase.data, cfg.maxBytes);
    assert s.flights[s.calls[d].name] == d && s.flights[s.calls[c].name] == c;
  }

  lemma PublishKeepsBusyNotCached(cfg: Config, s: State, c: nat)
    requires Enabled(cfg, s, Publish(c)) && FlightsMatch(s.calls, s.flights) && BusyNotCached(s)
    ensures BusyNotCached(Apply(cfg, s, Publish(c)))
  {
    var t := Apply(cfg, s, Publish(c));
    L.StoreKeys(s.cache, s.calls[c].k, s.calls[c].phase.data, cfg.maxBytes);
    forall d | 0 <= d < |t.calls| && Busy(t.calls[d].phase) ensures !L.Has(t.cache, t.calls[d].k) {
      PublishKeepsOthersOut(cfg, s, c, d);
    }
  }

  lemma RecheckKeepsBusyNotCached(cfg: Config, s: State, c: nat)
    requires Enabled(cfg, s, Recheck(c)) && BusyNotCached(s)
    ensures BusyNotCached(Apply(cfg, s, Recheck(c)))
  {
    CacheKeysKept(cfg, s, Recheck(c));
    L.LookupHas(s.cache, s.calls[c].k);
  }

  lemma OthersKeepBusyNotCached(cfg: Config, s: State, step: Step)
    requires Enabled(cfg, s, step) && BusyNotCached(s) && !step.Publish? && !step.Recheck?
    ensures BusyNotCached(Apply(cfg, s, step))
  {
    CacheKeysKept(cfg, s, step);
    var t := Apply(cfg, s, step);
    forall c | 0 <= c < |t.calls| && Busy(t.calls[c].phase)
      ensures c < |s.calls| && Busy(s.calls[c].phase) && t.calls[c].k == s.calls[c].k
    {
    }
  }

  lemma BusyNotCachedKept(cfg: Config, s: State, step: Step)
    requires Enabled(cfg, s, step) && FlightsMatch(s.calls, s.flights) && BusyNotCached(s)
    ensures BusyNotCached(Apply(cfg, s, step))
  {
    match step
    case Publish(c) => PublishKeepsBusyNotCached(cfg, s, c);
    case Recheck(c) => RecheckKeepsBusyNotCached(cfg, s, c);
    case _ => OthersKeepBusyNotCached(cfg, s, step);
  }

  // ---- Conservation --------------------------------------------------------

  ghost predicate InFlight(calls: seq<Call>, k: Key) {
    exists c :: 0 <= c < |calls| && calls[c].k == k && Busy(calls[c].phase)
  }

  function One(b: bool): nat {
    if b then 1 else 0
  }

  /** Every render started for a track has failed, been evicted, is cached, or is
      still under way. */
  ghost predicate Conserved(s: State, k: Key) {
    s.started[k] == s.failed[k] + s.evicted[k] + One(L.Has(s.cache, k)) + One(InFlight(s.calls, k))
  }

  lemma InFlightAfter(calls: seq<Call>, flights: map<string, nat>, c: nat, p: Phase, k: Key)
    requires FlightsMatch(calls, flights) && c < |calls| && !calls[c].phase.Returned?
    ensures var after := calls[c := calls[c].(phase := p)];
            if calls[c].k == k
            then InFlight(after, k) == Busy(p) && InFlight(calls, k) == Busy(calls[c].phase)
            else InFlight(after, k) == InFlight(calls, k)
  {
    var after := calls[c := calls[c].(phase := p)];
    forall d | 0 <= d < |calls| && d != c ensures after[d] == calls[d] {}
    if calls[c].k == k {
      forall d | 0 <= d < |calls| && calls[d].k == k && Busy(calls[d].phase) ensures d == c {
        OneLiveCall(calls, flights, c, d);
      }
      assert after[c].k == k && after[c].phase == p;
    } else {
      if InFlight(calls, k) {
        var d :| 0 <= d < |calls| && calls[d].k == k && Busy(calls[d].phase);
        assert after[d] == calls[d];
      }
      if InFlight(after, k) {
        var d :| 0 <= d < |after| && after[d].k == k && Busy(after[d].phase);
        assert calls[d].k == k;
      }
    }
  }

  lemma InFlightAppended(calls: seq<Call>, x: Call, k: Key)
    requires !Busy(x.phase)
    ensures InFlight(calls + [x], k) == InFlight(calls, k)
  {
    var after := calls + [x];
    if InFlight(calls, k) {
      var d :| 0 <= d < |calls| && calls[d].k == k && Busy(calls[d].phase);
      assert after[d] == calls[d];
    }
    if InFlight(after, k) {
      var d :| 0 <= d < |after| && after[d].k == k && Busy(after[d].phase);
      assert after[d] == calls[d];
    }
  }

  lemma KeySetHas(s: L.Lru, k: Key)
    ensures k in KeySet(s) <==> L.Has(s, k)
  {
  }

  lemma ReaderStepConserves(cfg: Config, s: State, step: Step, k: Key)
    requires Enabled(cfg, s, step) && IsReaderStep(step) && BusyNotCached(s) && Conserved(s, k)
    ensures Conserved(Apply(cfg, s, step), k)
  {
    CacheKeysKept(cfg, s, step);
    if step.Enter? {
      InFlightAppended(s.calls, Call(FlightKey(cfg.asked[step.r].k), cfg.asked[step.r].k, Checking), k);
    }
  }

  lemma ConservedKept(cfg: Config, s: State, step: Step, k: Key)
    requires Enabled(cfg, s, step) && FlightsMatch(s.calls, s.flights) && BusyNotCached(s)
    requires Conserved(s, k)
    ensures Conserved(Apply(cfg, s, step), k)
  {
    if IsReaderStep(step) {
      ReaderStepConserves(cfg, s, step, k);
    } else {
      CallStepConserves(cfg, s, step, k);
    }
  }

  lemma CallStepConserves(cfg: Config, s: State, step: Step, k: Key)
    requires Enabled(cfg, s, step) && !IsReaderStep(step)
    requires FlightsMatch(s.calls, s.flights) && BusyNotCached(s) && Conserved(s, k)
    ensures Conserved(Apply(cfg, s, step), k)
  {
    match step
    case Recheck(c) => RecheckConserves(cfg, s, c, k);
    case RenderFails(c) => InFlightAfter(s.calls, s.flights, c, Finished(Failed), k);
    case RenderEnds(c, data) => InFlightAfter(s.calls, s.flights, c, Storing(data), k);
    case Complete(c) => InFlightAfter(s.calls, s.flights, c, Returned(s.calls[c].phase.result), k);
    case Publish(c) => PublishConserves(cfg, s, c, k);
  }

  lemma PublishConserves(cfg: Config, s: State, c: nat, k: Key)
    requires Enabled(cfg, s, Publish(c)) && FlightsMatch(s.calls, s.flights) && BusyNotCached(s)
    requires Conserved(s, k)
    ensures Conserved(Apply(cfg, s, Publish(c)), k)
  {
    InFlightAfter(s.calls, s.flights, c, Finished(Rendered(s.calls[c].phase.data)), k);
    PublishCounts(cfg, s, c, k);
  }

  lemma RecheckConserves(cfg: Config, s: State, c: nat, k: Key)
    requires Enabled(cfg, s, Recheck(c)) && FlightsMatch(s.calls, s.flights) && BusyNotCached(s)
    requires Conserved(s, k)
    ensures Conserved(Apply(cfg, s, Recheck(c)), k)
  {
    CacheKeysKept(cfg, s, Recheck(c));
    L.LookupHas(s.cache, s.calls[c].k);
    InFlightAfter(s.calls, s.flights, c, Apply(cfg, s, Recheck(c)).calls[c].phase, k);
  }

  /** Storing a track caches it, and counts every key that disappears. */
  lemma PublishCounts(cfg: Config, s: State, c: nat, k: Key)
    requires Enabled(cfg, s, Publish(c)) && BusyNotCached(s)
    ensures var t := Apply(cfg, s, Publish(c));
            if k == s.calls[c].k
            then L.Has(t.cache, k) && !L.Has(s.cache, k) && t.evicted[k] == s.evicted[k]
            else t.evicted[k] + One(L.Has(t.cache, k)) == s.evicted[k] + One(L.Has(s.cache, k))
  {
    var t := Apply(cfg, s, Publish(c));
    L.StoreKeys(s.cache, s.calls[c].k, s.calls[c].phase.data, cfg.maxBytes);
    L.LookupHas(t.cache, s.calls[c].k);
    KeySetHas(s.cache, k);
    KeySetHas(t.cache, k);
  }

  // ---- Data ----------------------------------------------------------------

  ghost predicate ResultValid(cfg: Config, k: Key, result: Outcome) {
    result.Rendered? ==> cfg.renders(k, result.data)
  }

  ghost predicate PhaseValid(cfg: Config, k: Key, p: Phase) {
    match p
    case Storing(data) => cfg.renders(k, data)
    case Finished(result) => ResultValid(cfg, k, result)
    case Returned(result) => ResultValid(cfg, k, result)
    case _ => true
  }

  ghost predicate EntryValid(cfg: Config, e: L.Entry) {
    cfg.renders(e.k, e.data)
  }

  ghost predicate EntriesValid(cfg: Config, s: L.Lru) {
    forall i :: 0 <= i < |s| ==> EntryValid(cfg, s[i])
  }

  /** All data in the cache and in calls was rendered for its track. */
  ghost predicate DataValid(cfg: Config, s: State) {
    && EntriesValid(cfg, s.cache)
    && (forall c :: 0 <= c < |s.calls| ==> PhaseValid(cfg, s.calls[c].k, s.calls[c].phase))
  }

  /** What an answer must be: header bytes for a read inside the header, or the
      requested slice of something rendered for that track, or EIO. */
  ghost predicate AnswerValid(cfg: Config, q: Read, x: Reader) {
    x.Answered? ==>
      match x.reply
      case EIO => x.via.FromCall?
      case Data(b) =>
        if x.via.FromHeader?
        then q.off < |cfg.header(q.k)| && b == SliceAt(cfg.header(q.k), q.n, q.off)
        else exists data :: cfg.renders(q.k, data) && b == SliceAt(data, q.n, q.off)
  }

  ghost predicate AnswersValid(cfg: Config, s: State) {
    && |s.readers| == |cfg.asked|
    && forall r :: 0 <= r < |s.readers| ==> AnswerValid(cfg, cfg.asked[r], s.readers[r])
  }

  lemma {:induction false} LookupValid(cfg: Config, s: L.Lru, k: Key)
    requires EntriesValid(cfg, s)
    ensures L.Lookup(s, k).Some? ==> cfg.renders(k, L.Lookup(s, k).value)
  {
    if s != [] {
      assert EntryValid(cfg, s[0]);
      LookupValid(cfg, s[1..], k);
    }
  }

  lemma {:induction false} WithoutValid(cfg: Config, s: L.Lru, k: Key)
    requires EntriesValid(cfg, s)
    ensures EntriesValid(cfg, L.Without(s, k))
  {
    if s != [] {
      WithoutValid(cfg, s[1..], k);
    }
  }

  lemma TouchValid(cfg: Config, s: L.Lru, k: Key)
    requires EntriesValid(cfg, s)
    ensures EntriesValid(cfg, L.Touch(s, k))
  {
    LookupValid(cfg, s, k);
    WithoutValid(cfg, s, k);
  }

  lemma StoreValid(cfg: Config, s: L.Lru, k: Key, data: seq<byte>)
    requires EntriesValid(cfg, s) && cfg.renders(k, data)
    ensures EntriesValid(cfg, L.Store(s, k, data, cfg.maxBytes))
  {
    WithoutValid(cfg, s, k);
    L.TrimIsLongestFittingPrefix([L.Entry(k, data)] + L.Without(s, k), cfg.maxBytes);
  }

  lemma CallDataKept(cfg: Config, s: State, step: Step)
    requires Enabled(cfg, s, step) && !IsReaderStep(step) && DataValid(cfg, s) && step.c < |s.calls|
    ensures var t := Apply(cfg, s, step);
            step.c < |t.calls| && PhaseValid(cfg, s.calls[step.c].k, t.calls[step.c].phase)
  {
    assert PhaseValid(cfg, s.calls[step.c].k, s.calls[step.c].phase);
    match step
    case Recheck(c) => LookupValid(cfg, s.cache, s.calls[c].k);
    case RenderFails(c) =>
    case RenderEnds(c, data) =>
    case Publish(c) =>
    case Complete(c) =>
  }

  lemma CacheDataKept(cfg: Config, s: State, step: Step)
    requires Enabled(cfg, s, step) && DataValid(cfg, s)
    ensures EntriesValid(cfg, Apply(cfg, s, step).cache)
  {
    match step
    case LookUp(r) => TouchValid(cfg, s.cache, cfg.asked[r].k);
    case Recheck(c) => TouchValid(cfg, s.cache, s.calls[c].k);
    case Publish(c) =>
      assert PhaseValid(cfg, s.calls[c].k, s.calls[c].phase);
      StoreValid(cfg, s.cache, s.calls[c].k, s.calls[c].phase.data);
    case _ =>
  }

  lemma DataValidKept(cfg: Config, s: State, step: Step)
    requires Enabled(cfg, s, step) && DataValid(cfg, s)
    ensures DataValid(cfg, Apply(cfg, s, step))
  {
    var t := Apply(cfg, s, step);
    CacheDataKept(cfg, s, step);
    if IsReaderStep(step) {
      ReaderStep(cfg, s, step);
      forall c | 0 <= c < |t.calls| ensures PhaseValid(cfg, t.calls[c].k, t.calls[c].phase) {
        assert c < |s.calls| ==> t.calls[c] == t.calls[..|s.calls|][c];
      }
    } else {
      CallStep(cfg, s, step);
      CallDataKept(cfg, s, step);
    }
  }

  lemma AnswersValidKept(cfg: Config, s: State, step: Step)
    requires Enabled(cfg, s, step) && DataValid(cfg, s) && WaitersMatch(cfg, s) && AnswersValid(cfg, s)
    ensures AnswersValid(cfg, Apply(cfg, s, step))
  {
    match step
    case LookUp(r) =>
      LookupValid(cfg, s.cache, cfg.asked[r].k);
    case Collect(r) =>
      var c := s.readers[r].c;
      assert ReaderMatches(cfg.asked[r], s.readers[r], s.calls);
      assert PhaseValid(cfg, s.calls[c].k, s.calls[c].phase);
    case _ =>
  }

  // ---- Failures ------------------------------------------------------------

  ghost predicate CallFailureCounted(s: State, c: nat)
    requires c < |s.calls|
  {
    s.calls[c].phase == Finished(Failed) || s.calls[c].phase == Returned(Failed) ==>
      s.failed[s.calls[c].k] > 0
  }

  ghost predicate AnswerFailureCounted(q: Read, x: Reader, failed: multiset<Key>) {
    x.Answered? && x.reply.EIO? ==> failed[q.k] > 0
  }

  /** EIO is answered only for a track some render of which failed. */
  ghost predicate FailuresCounted(cfg: Config, s: State) {
    && |s.readers| == |cfg.asked|
    && (forall c :: 0 <= c < |s.calls| ==> CallFailureCounted(s, c))
    && (forall r :: 0 <= r < |s.readers| ==> AnswerFailureCounted(cfg.asked[r], s.readers[r], s.failed))
  }

  lemma FailedGrows(cfg: Config, s: State, step: Step, k: Key)
    requires Enabled(cfg, s, step)
    ensures s.failed[k] <= Apply(cfg, s, step).failed[k]
  {
  }

  lemma CallFailuresKept(cfg: Config, s: State, step: Step, c: nat)
    requires Enabled(cfg, s, step) && FailuresCounted(cfg, s) && c < |Apply(cfg, s, step).calls|
    ensures CallFailureCounted(Apply(cfg, s, step), c)
  {
    var t := Apply(cfg, s, step);
    if IsReaderStep(step) {
      ReaderStep(cfg, s, step);
      if c < |s.calls| {
        assert t.calls[c] == t.calls[..|s.calls|][c];
        assert CallFailureCounted(s, c);
      }
    } else {
      CallStep(cfg, s, step);
      assert CallFailureCounted(s, c);
      FailedGrows(cfg, s, step, s.calls[c].k);
      if c == step.c {
        OwnFailureCounted(cfg, s, step);
      }
    }
  }

  lemma OwnFailureCounted(cfg: Config, s: State, step: Step)
    requires Enabled(cfg, s, step) && !IsReaderStep(step)
    requires step.c < |s.calls| && CallFailureCounted(s, step.c)
    ensures step.c < |Apply(cfg, s, step).calls| && CallFailureCounted(Apply(cfg, s, step), step.c)
  {
    match step
    case Recheck(c) =>
    case RenderFails(c) =>
    case RenderEnds(c, data) =>
    case Publish(c) =>
    case Complete(c) =>
  }

  lemma FailuresCountedKept(cfg: Config, s: State, step: Step)
    requires Enabled(cfg, s, step) && WaitersMatch(cfg, s) && FailuresCounted(cfg, s)
    ensures FailuresCounted(cfg, Apply(cfg, s, step))
  {
    var t := Apply(cfg, s, step);
    forall c | 0 <= c < |t.calls| ensures CallFailureCounted(t, c) {
      CallFailuresKept(cfg, s, step, c);
    }
    forall r | 0 <= r < |t.readers| ensures AnswerFailureCounted(cfg.asked[r], t.readers[r], t.failed) {
      FailedGrows(cfg, s, step, cfg.asked[r].k);
      assert AnswerFailureCounted(cfg.asked[r], s.readers[r], s.failed);
      if step == Collect(r) {
        assert ReaderMatches(cfg.asked[r], s.readers[r], s.calls);
        assert CallFailureCounted(s, s.readers[r].c);
      }
    }
  }

  // ---- Every reachable state -----------------------------------------------

  ghost predicate Safe(cfg: Config, s: State) {
    && FlightsMatch(s.calls, s.flights)
    && WaitersMatch(cfg, s)
    && BusyNotCached(s)
    && (forall k :: Conserved(s, k))
    && DataValid(cfg, s)
    && AnswersValid(cfg, s)
    && FailuresCounted(cfg, s)
  }

  lemma {:induction false} ReachableSafe(cfg: Config, steps: seq<Step>)
    requires Run(cfg, steps).Some?
    ensures Safe(cfg, Run(cfg, steps).value)
  {
    if steps != [] {
      ReachableSafe(cfg, steps[..|steps| - 1]);
      StepSafe(cfg, Run(cfg, steps[..|steps| - 1]).value, steps[|steps| - 1]);
    }
  }

  lemma StepSafe(cfg: Config, s: State, step: Step)
    requires Safe(cfg, s) && Enabled(cfg, s, step)
    ensures Safe(cfg, Apply(cfg, s, step))
  {
    FlightsMatchKept(cfg, s, step);
    WaitersMatchKept(cfg, s, step);
    BusyNotCachedKept(cfg, s, step);
    forall k ensures Conserved(Apply(cfg, s, step), k) {
      ConservedKept(cfg, s, step, k);
    }
    DataValidKept(cfg, s, step);
    AnswersValidKept(cfg, s, step);
    FailuresCountedKept(cfg, s, step);
  }
}
