/** Rendering one track: the loop of internal/vfs/vfs.go that runs an emulator
    and muxes its samples.  The emulator itself is foreign code: here it is an
    arbitrary script saying which samples it would play, where it faults and
    where it reports its track ended. */
module Render {
  import opened Bytes
  import opened Wrappers
  import F = WavFormat
  import Muxer

  const CHUNK_LEN := 4096
  const MAX_PLAY_MS := 20 * 60 * 1000
  const MAX_FADE_MS := 60 * 1000

  datatype TrackEntry = TrackEntry(
    filename: string, trackIdx: nat, playMs: int, fadeMs: int, opts: F.Options)
  {
    function TotalMs(): int { playMs + fadeMs }
    function Expected(): int { F.SampleCount(TotalMs(), opts) }

    /** What the track list guarantees of its entries (see TrackNames.EntryInRange). */
    predicate InRange() {
      && 0 <= playMs <= MAX_PLAY_MS && 0 <= fadeMs <= MAX_FADE_MS
      && 0 <= opts.sampleRate && 0 <= opts.channels
    }
  }

  function ClampMs(ms: int, defaultMs: int, maxMs: int): int {
    var ms := if ms <= 0 then defaultMs else ms;
    if ms < maxMs then ms else maxMs
  }

  /** A duration already in range is kept, so clamping twice changes nothing. */
  lemma ReclampKeeps(ms: int, defaultMs: int, maxMs: int, other: int)
    requires defaultMs > 0 && maxMs > 0
    ensures var c := ClampMs(ms, defaultMs, maxMs);
            && 0 < c <= maxMs
            && (0 < ms <= maxMs ==> c == ms)
            && ClampMs(c, other, maxMs) == c && ClampMs(0, c, maxMs) == c
  {
  }

  /** A track holds as many whole sample frames as fit its duration. */
  lemma SampleCountMeaning(ms: nat, opts: F.Options) returns (frames: nat)
    requires 0 <= opts.sampleRate
    ensures F.SampleCount(ms, opts) == frames * opts.channels
    ensures frames * 1000 <= ms * opts.sampleRate < (frames + 1) * 1000
  {
    assert 0 <= ms * opts.sampleRate;
    frames := ms * opts.sampleRate / 1000;
  }

  /** An entry's play time and its fade together decide how much it holds. */
  lemma ExpectedMeaning(t: TrackEntry) returns (frames: nat)
    requires t.InRange()
    ensures t.Expected() == frames * t.opts.channels
    ensures frames * 1000 <= (t.playMs + t.fadeMs) * t.opts.sampleRate < (frames + 1) * 1000
  {
    frames := SampleCountMeaning(t.playMs + t.fadeMs, t.opts);
  }

  lemma SampleCountMonotone(a: int, b: int, opts: F.Options)
    requires 0 <= a <= b && 0 <= opts.sampleRate && 0 <= opts.channels
    ensures 0 <= F.SampleCount(a, opts) <= F.SampleCount(b, opts)
  {
    assert 0 <= a * opts.sampleRate <= b * opts.sampleRate;
    var x, y := a * opts.sampleRate / 1000, b * opts.sampleRate / 1000;
    assert 0 <= x <= y;
    assert 0 <= x * opts.channels <= y * opts.channels;
  }

  /** Clamping keeps every track below the loop's safety ceiling. */
  lemma ExpectedBelowCeiling(t: TrackEntry)
    requires t.InRange()
    ensures 0 <= t.Expected() <= F.SampleCount(MAX_PLAY_MS + MAX_FADE_MS, t.opts)
  {
    SampleCountMonotone(t.TotalMs(), MAX_PLAY_MS + MAX_FADE_MS, t.opts);
  }

  function Silence(n: nat): seq<int16> {
    seq(n, _ => 0)
  }

  function FitSamples(samples: seq<int16>, n: nat): (r: seq<int16>)
    ensures |r| == n
    ensures forall i :: 0 <= i < n ==> r[i] == if i < |samples| then samples[i] else 0
  {
    if |samples| >= n then samples[..n] else samples + Silence(n - |samples|)
  }

  // ---- The emulator --------------------------------------------------------

  /** Indexed by the number of samples played since the track was started. */
  datatype Script = Script(wave: nat -> int16, faults: nat -> bool, ends: nat -> bool)

  /** What an emulator has been told: its sample rate, the track it is to play, and
      when that track is to fade out for how long. */
  datatype Cue = Cue(sampleRate: int, track: nat, playMs: int, fadeMs: int)

  function CueOf(t: TrackEntry): Cue {
    Cue(t.opts.sampleRate, t.trackIdx, t.playMs, t.fadeMs)
  }

  /** scripts says how the emulator behaves on every cue. */
  class Emulator {
    const scripts: Cue -> Script
    var cue: Cue
    var pos: nat

    constructor (scripts: Cue -> Script)
      ensures this.scripts == scripts
    {
      this.scripts := scripts;
      cue, pos := Cue(0, 0, 0, 0), 0;
    }

    method Open(sampleRate: int)
      modifies this
      ensures cue == Cue(sampleRate, 0, 0, 0) && pos == 0
    {
      cue, pos := Cue(sampleRate, 0, 0, 0), 0;
    }

    method StartTrack(i: nat)
      modifies this
      ensures cue == old(cue).(track := i) && pos == 0
    {
      cue, pos := cue.(track := i), 0;
    }

    method SetFade(playMs: int, fadeMs: int)
      modifies this
      ensures cue == old(cue).(playMs := playMs, fadeMs := fadeMs) && pos == old(pos)
    {
      cue := cue.(playMs := playMs, fadeMs := fadeMs);
    }

    method TrackEnded() returns (ended: bool)
      ensures ended == scripts(cue).ends(pos)
    {
      ended := scripts(cue).ends(pos);
    }

    method Play(buf: array<int16>) returns (ok: bool)
      modifies this, buf
      ensures cue == old(cue) && ok == !scripts(cue).faults(old(pos))
      ensures pos == if ok then old(pos) + buf.Length else old(pos)
      ensures ok ==> forall i :: 0 <= i < buf.Length ==> buf[i] == scripts(cue).wave(old(pos) + i)
    {
      if scripts(cue).faults(pos) {
        return false;
      }
      forall i | 0 <= i < buf.Length {
        buf[i] := scripts(cue).wave(pos + i);
      }
      pos := pos + buf.Length;
      ok := true;
    }
  }

  // ---- What a render must produce ------------------------------------------

  /** The track has ended at or before the start of the chunk that holds sample i. */
  predicate EndedBy(s: Script, i: nat) {
    exists k: nat :: k <= i / CHUNK_LEN && s.ends(k * CHUNK_LEN)
  }

  function Heard(s: Script, i: nat): int16 {
    if EndedBy(s, i) then 0 else s.wave(i)
  }

  /** The emulator's own stream up to its end, then silence, cut at n samples.
      No safety ceiling appears here. */
  function Audible(s: Script, n: nat): (r: seq<int16>)
    ensures |r| == n
  {
    seq(n, i requires 0 <= i < n => Heard(s, i))
  }

  /** Up to the chunk boundary where the emulator first reports its end the stream
      is the emulator's own, from there on it is silence. */
  lemma AudibleMeaning(s: Script, n: nat, chunks: nat)
    requires forall k: nat :: k < chunks ==> !s.ends(4096 * k)
    ensures forall i :: 0 <= i < n && i < 4096 * chunks ==> Audible(s, n)[i] == s.wave(i)
    ensures s.ends(4096 * chunks) ==> forall i :: 4096 * chunks <= i < n ==> Audible(s, n)[i] == 0
  {
    forall i | 0 <= i < n ensures i < 4096 * chunks ==> !EndedBy(s, i)
      ensures s.ends(4096 * chunks) && i >= 4096 * chunks ==> EndedBy(s, i)
    {
      if i >= 4096 * chunks {
        assert chunks <= i / CHUNK_LEN;
        assert chunks * CHUNK_LEN == 4096 * chunks;
      } else {
        forall k: nat | k <= i / CHUNK_LEN ensures !s.ends(k * CHUNK_LEN) {
          assert k * CHUNK_LEN == 4096 * k;
        }
      }
    }
  }

  /** Rendering fails exactly if some chunk faults that starts below the ceiling
      and no later than any end the emulator reports. */
  lemma FaultMeaning(s: Script, maxSamples: int)
    ensures FaultMet(s, maxSamples)
            <==> exists at: nat :: at % 4096 == 0 && at < maxSamples && s.faults(at) &&
                   forall e: nat :: e % 4096 == 0 && e <= at ==> !s.ends(e)
  {
    if FaultMet(s, maxSamples) {
      var k: nat :| k * CHUNK_LEN < maxSamples && s.faults(k * CHUNK_LEN) && !EndedBy(s, k * CHUNK_LEN);
      forall e: nat | e % 4096 == 0 && e <= k * CHUNK_LEN ensures !s.ends(e) {
        assert e == e / 4096 * CHUNK_LEN && e / 4096 <= k * CHUNK_LEN / CHUNK_LEN;
      }
    }
    if at: nat :| at % 4096 == 0 && at < maxSamples && s.faults(at) &&
                  forall e: nat :: e % 4096 == 0 && e <= at ==> !s.ends(e)
    {
      var k := at / 4096;
      assert at == k * CHUNK_LEN;
      forall j: nat | j <= at / CHUNK_LEN ensures !s.ends(j * CHUNK_LEN) {
        assert j * CHUNK_LEN % 4096 == 0 && j * CHUNK_LEN <= at;
      }
    }
  }

  /** A chunk the loop plays faults. */
  ghost predicate FaultMet(s: Script, maxSamples: int) {
    exists k: nat :: k * CHUNK_LEN < maxSamples && s.faults(k * CHUNK_LEN) && !EndedBy(s, k * CHUNK_LEN)
  }

  /** How the steps before the loop turn out. */
  datatype Setup = ReadFails | OpenFails | StartFails | Starts

  datatype RenderError = ReadingSource | OpeningEmulator | StartingTrack | Rendering

  /** renderTrack: stops after at most ceil(maxSamples / 4096) chunks for every
      emulator, and produces exactly the audible stream. */
  method RenderTrack(setup: Setup, emu: Emulator, t: TrackEntry) returns (r: Result<seq<byte>, RenderError>)
    requires t.InRange()
    modifies emu
    ensures setup == ReadFails ==> r == Err(ReadingSource)
    ensures setup == OpenFails ==> r == Err(OpeningEmulator)
    ensures setup == StartFails ==> r == Err(StartingTrack)
    ensures setup == Starts ==>
              var max := F.SampleCount(MAX_PLAY_MS + MAX_FADE_MS, t.opts);
              && 0 <= t.Expected() <= max
              && emu.pos < max + CHUNK_LEN
              && (var s := emu.scripts(Cue(t.opts.sampleRate, t.trackIdx, t.playMs, t.fadeMs));
                  r == if FaultMet(s, max) then Err(Rendering) else Ok(F.WavFile(Audible(s, t.Expected()), t.opts)))
  {
    match setup
    case ReadFails => return Err(ReadingSource);
    case OpenFails => return Err(OpeningEmulator);
    case StartFails => return Err(StartingTrack);
    case Starts =>
    emu.Open(t.opts.sampleRate);
    emu.StartTrack(t.trackIdx);
    emu.SetFade(t.playMs, t.fadeMs);
    var maxSamples := F.SampleCount(MAX_PLAY_MS + MAX_FADE_MS, t.opts);
    var expectedSamples := F.SampleCount(t.playMs + t.fadeMs, t.opts);
    ExpectedBelowCeiling(t);
    var played := PlayTrack(emu, maxSamples, expectedSamples);
    if played.None? {
      return Err(Rendering);
    }
    var wav := Muxer.Encode(played.value, t.opts);
    r := Ok(wav);
  }

  /** The loop, and the cut to the announced length. */
  method PlayTrack(emu: Emulator, maxSamples: nat, expectedSamples: nat) returns (r: Option<seq<int16>>)
    requires expectedSamples <= maxSamples && emu.pos == 0
    modifies emu
    ensures var s := emu.scripts(old(emu.cue));
            r == if FaultMet(s, maxSamples) then None else Some(Audible(s, expectedSamples))
    ensures emu.pos < maxSamples + CHUNK_LEN && emu.pos % CHUNK_LEN == 0
  {
    var allSamples: seq<int16> := [];
    var chunk := new int16[CHUNK_LEN](_ => 0);

    ghost var s, plays := emu.scripts(emu.cue), 0;
    var ended := emu.TrackEnded();
    while !ended && |allSamples| < maxSamples
      invariant 0 <= plays && |allSamples| == emu.pos == plays * CHUNK_LEN < maxSamples + CHUNK_LEN
      invariant emu.cue == old(emu.cue) && ended == s.ends(emu.pos)
      invariant forall i :: 0 <= i < |allSamples| ==> allSamples[i] == s.wave(i)
      invariant forall k: nat :: k < plays ==> !s.ends(k * CHUNK_LEN)
      invariant forall k: nat :: k < plays ==> !s.faults(k * CHUNK_LEN)
      decreases maxSamples - |allSamples|
    {
      var ok := emu.Play(chunk);
      if !ok {
        assert plays * CHUNK_LEN / CHUNK_LEN == plays;
        assert FaultMet(s, maxSamples);
        return None;
      }
      allSamples := allSamples + chunk[..];
      plays := plays + 1;
      ended := emu.TrackEnded();
    }
    NoFaultMet(s, maxSamples, plays);
    LoopStreamIsAudible(s, allSamples, plays, expectedSamples, maxSamples);
    r := Some(FitSamples(allSamples, expectedSamples));
  }

  lemma NoFaultMet(s: Script, maxSamples: int, plays: nat)
    requires s.ends(plays * CHUNK_LEN) || plays * CHUNK_LEN >= maxSamples
    requires forall k: nat :: k < plays ==> !s.faults(k * CHUNK_LEN)
    ensures !FaultMet(s, maxSamples)
  {
    forall k: nat | k * CHUNK_LEN < maxSamples && s.faults(k * CHUNK_LEN)
      ensures EndedBy(s, k * CHUNK_LEN)
    {
      assert k * CHUNK_LEN / CHUNK_LEN == k;
      assert k >= plays;
    }
  }

  /** Cutting or padding what the loop collected gives the audible stream. */
  lemma LoopStreamIsAudible(s: Script, all: seq<int16>, plays: nat, expected: nat, maxSamples: int)
    requires |all| == plays * CHUNK_LEN && expected <= maxSamples
    requires s.ends(plays * CHUNK_LEN) || |all| >= maxSamples
    requires forall i :: 0 <= i < |all| ==> all[i] == s.wave(i)
    requires forall k: nat :: k < plays ==> !s.ends(k * CHUNK_LEN)
    ensures FitSamples(all, expected) == Audible(s, expected)
  {
    forall i | 0 <= i < expected
      ensures EndedBy(s, i) <==> i >= |all|
    {
      if i >= |all| {
        assert plays <= i / CHUNK_LEN;
      }
    }
  }

  // ---- The promise getattr and header reads rely on ------------------------

  /** Every render of a track has the length EstimatedSize announced, and starts
      with the bytes HeaderBytes served. */
  lemma SizeAndHeaderPromise(samples: seq<int16>, t: TrackEntry)
    requires t.InRange() && |samples| == t.Expected()
    ensures var header := F.WavHeader(t.Expected() * 2, t.opts);
            && |F.WavFile(samples, t.opts)| == |header| + t.Expected() * 2
            && header <= F.WavFile(samples, t.opts)
  {
    HeaderInFront(F.WavHeader(2 * |samples|, t.opts), F.PcmBytes(samples));
  }

  lemma HeaderInFront(header: seq<byte>, pcm: seq<byte>)
    ensures header <= header + pcm && |header + pcm| == |header| + |pcm|
  {
  }
}
