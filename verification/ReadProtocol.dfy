/** How concurrent reads of virtual tracks are served: TrackFile.Read and
    trackStore.render of internal/vfs/vfs.go as a step system.  Any number of
    readers interleave; each step is one atomic action: a cache operation under
    the cache's mutex, a move of the singleflight group under its mutex, or the
    end of a render.  Singleflight is modelled by its contract: at most one call
    is registered under a name, and everyone who finds it waits for its result. */
module ReadProtocol {
  import opened Bytes
  import opened Wrappers
  import Decimal
  import L = LruSpec

  type Key = L.Key

  /** A read of n bytes at an offset. */
  datatype Read = Read(k: Key, off: nat, n: nat)

  /** The world a run takes place in: the cache capacity, the pre-built header of
      every track, which byte sequences a render of a track can produce, and the
      reads that are made.  renders need not be deterministic. */
  datatype Config = Config(
    maxBytes: int, header: Key -> seq<byte>, renders: (Key, seq<byte>) -> bool, asked: seq<Read>)

  datatype Reply = Data(bytes: seq<byte>) | EIO

  datatype Via = FromCache | FromHeader | FromCall(c: nat)

  datatype Reader =
    | Asked                            // not yet looked up
    | Missed                           // about to call singleflight
    | Waiting(c: nat)                  // leads or joined call c
    | Answered(reply: Reply, via: Via)

  datatype Outcome = Rendered(data: seq<byte>) | Failed

  datatype Phase =
    | Checking                   // about to look in the cache again
    | Rendering
    | Storing(data: seq<byte>)   // rendered, about to call Set
    | Finished(result: Outcome)  // still registered
    | Returned(result: Outcome)  // unregistered, waiters released

  datatype Call = Call(name: string, k: Key, phase: Phase)

  datatype State = State(
    cache: L.Lru, readers: seq<Reader>, calls: seq<Call>, flights: map<string, nat>,
    started: multiset<Key>, failed: multiset<Key>, evicted: multiset<Key>)

  datatype Step =
    | LookUp(r: nat)
    | Enter(r: nat)
    | Recheck(c: nat)
    | RenderFails(c: nat)
    | RenderEnds(c: nat, data: seq<byte>)
    | Publish(c: nat)
    | Complete(c: nat)
    | Collect(r: nat)

  /** The name a call is registered under. */
  function FlightKey(k: Key): string {
    k.sourcePath + ['\0'] + Decimal.ToText(Decimal.Digits(k.trackIndex))
  }

  /** sliceAt: the part of src a read of n bytes at off gets. */
  function SliceAt(src: seq<byte>, n: nat, off: nat): seq<byte> {
    if off >= |src| then []
    else if off + n > |src| then src[off..]
    else src[off..off + n]
  }

  function ReplyOf(result: Outcome, q: Read): Reply {
    match result
    case Rendered(data) => Data(SliceAt(data, q.n, q.off))
    case Failed => EIO
  }

  function KeySet(s: L.Lru): set<Key> {
    set i | 0 <= i < |s| :: s[i].k
  }

  function Init(cfg: Config): State {
    State([], seq(|cfg.asked|, _ => Asked), [], map[], multiset{}, multiset{}, multiset{})
  }

  predicate Enabled(cfg: Config, s: State, step: Step) {
    match step
    case LookUp(r) => r < |s.readers| == |cfg.asked| && s.readers[r].Asked?
    case Enter(r) => r < |s.readers| == |cfg.asked| && s.readers[r].Missed?
    case Recheck(c) => c < |s.calls| && s.calls[c].phase.Checking?
    case RenderFails(c) => c < |s.calls| && s.calls[c].phase.Rendering?
    case RenderEnds(c, data) =>
      c < |s.calls| && s.calls[c].phase.Rendering? && cfg.renders(s.calls[c].k, data)
    case Publish(c) => c < |s.calls| && s.calls[c].phase.Storing?
    case Complete(c) => c < |s.calls| && s.calls[c].phase.Finished?
    case Collect(r) =>
      && r < |s.readers| == |cfg.asked| && s.readers[r].Waiting?
      && s.readers[r].c < |s.calls| && s.calls[s.readers[r].c].phase.Returned?
  }

  function SetReader(s: State, r: nat, x: Reader): State
    requires r < |s.readers|
  {
    s.(readers := s.readers[r := x])
  }

  function SetPhase(s: State, c: nat, p: Phase): State
    requires c < |s.calls|
  {
    s.(calls := s.calls[c := s.calls[c].(phase := p)])
  }

  /** Read up to its cache lookup: a hit answers; a miss inside the header
      answers with header bytes only; any other miss goes on to render. */
  function ApplyLookUp(cfg: Config, s: State, r: nat): State
    requires Enabled(cfg, s, LookUp(r))
  {
    var q := cfg.asked[r];
    match L.Lookup(s.cache, q.k)
    case Some(data) =>
      SetReader(s, r, Answered(Data(SliceAt(data, q.n, q.off)), FromCache)).(cache := L.Touch(s.cache, q.k))
    case None =>
      if q.off < |cfg.header(q.k)|
      then SetReader(s, r, Answered(Data(SliceAt(cfg.header(q.k), q.n, q.off)), FromHeader))
      else SetReader(s, r, Missed)
  }

  /** singleflight.Do: join the call registered under the name, or start one. */
  function ApplyEnter(cfg: Config, s: State, r: nat): State
    requires Enabled(cfg, s, Enter(r))
  {
    var k := cfg.asked[r].k;
    var name := FlightKey(k);
    if name in s.flights then SetReader(s, r, Waiting(s.flights[name]))
    else
      SetReader(s, r, Waiting(|s.calls|))
      .(calls := s.calls + [Call(name, k, Checking)], flights := s.flights[name := |s.calls|])
  }

  function ApplyRecheck(cfg: Config, s: State, c: nat): State
    requires Enabled(cfg, s, Recheck(c))
  {
    var k := s.calls[c].k;
    match L.Lookup(s.cache, k)
    case Some(data) => SetPhase(s, c, Finished(Rendered(data))).(cache := L.Touch(s.cache, k))
    case None => SetPhase(s, c, Rendering).(started := s.started + multiset{k})
  }

  function ApplyPublish(cfg: Config, s: State, c: nat): State
    requires Enabled(cfg, s, Publish(c))
  {
    var k, data := s.calls[c].k, s.calls[c].phase.data;
    var cache := L.Store(s.cache, k, data, cfg.maxBytes);
    SetPhase(s, c, Finished(Rendered(data)))
    .(cache := cache, evicted := s.evicted + multiset(KeySet(s.cache) - KeySet(cache)))
  }

  function Apply(cfg: Config, s: State, step: Step): State
    requires Enabled(cfg, s, step)
  {
    match step
    case LookUp(r) => ApplyLookUp(cfg, s, r)
    case Enter(r) => ApplyEnter(cfg, s, r)
    case Recheck(c) => ApplyRecheck(cfg, s, c)
    case RenderFails(c) =>
      SetPhase(s, c, Finished(Failed)).(failed := s.failed + multiset{s.calls[c].k})
    case RenderEnds(c, data) => SetPhase(s, c, Storing(data))
    case Publish(c) => ApplyPublish(cfg, s, c)
    case Complete(c) =>
      SetPhase(s, c, Returned(s.calls[c].phase.result)).(flights := s.flights - {s.calls[c].name})
    case Collect(r) =>
      var c := s.readers[r].c;
      SetReader(s, r, Answered(ReplyOf(s.calls[c].phase.result, cfg.asked[r]), FromCall(c)))
  }

  /** The state a sequence of steps leads to, if each of them can be taken. */
  function Run(cfg: Config, steps: seq<Step>): Option<State> {
    if steps == [] then Some(Init(cfg))
    else
      match Run(cfg, steps[..|steps| - 1])
      case None => None
      case Some(s) =>
        var step := steps[|steps| - 1];
        if Enabled(cfg, s, step) then Some(Apply(cfg, s, step)) else None
  }

  /** Distinct tracks never share a flight: the last NUL of a name separates the
      path, whatever it contains, from the track number. */
  lemma FlightKeyInjective(a: Key, b: Key)
    ensures FlightKey(a) == FlightKey(b) <==> a == b
  {
    if FlightKey(a) == FlightKey(b) {
      var da, db := Decimal.Digits(a.trackIndex), Decimal.Digits(b.trackIndex);
      var x, y := FlightKey(a), FlightKey(b);
      var ta, tb := Decimal.ToText(da), Decimal.ToText(db);
      assert x[|a.sourcePath|] == '\0' && y[|b.sourcePath|] == '\0';
      assert forall i :: |a.sourcePath| < i < |x| ==> x[i] == ta[i - |a.sourcePath| - 1];
      assert forall i :: |b.sourcePath| < i < |y| ==> y[i] == tb[i - |b.sourcePath| - 1];
      assert |a.sourcePath| == |b.sourcePath|;
      assert a.sourcePath == x[..|a.sourcePath|] && b.sourcePath == y[..|b.sourcePath|];
      assert ta == x[|a.sourcePath| + 1..] && tb == y[|b.sourcePath| + 1..];
      assert ta + [] == ta && tb + [] == tb;
      Decimal.TextPrefixInjective(da, [], db, []);
      Decimal.ValueOfDigits(a.trackIndex);
      Decimal.ValueOfDigits(b.trackIndex);
    }
  }
}
