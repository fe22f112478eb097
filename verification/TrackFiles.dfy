/** TrackFile.Read and trackStore.render as the methods they are, over the
    pointer-level cache and the render loop, for a reader that runs alone; and
    the proof that such a read is a run of the read protocol. */
module TrackFiles {
  import opened Bytes
  import opened Wrappers
  import opened LruCache
  import opened Render
  import opened ReadProtocol
  import L = LruSpec
  import F = WavFormat
  import Muxer

  /** How a render of entry t turns out on a given emulator. */
  ghost function RenderOutcome(setup: Setup, scripts: Cue -> Script, t: TrackEntry): Outcome
    requires t.InRange()
  {
    ExpectedBelowCeiling(t);
    if setup == Starts && !FaultMet(scripts(CueOf(t)), F.SampleCount(MAX_PLAY_MS + MAX_FADE_MS, t.opts))
    then Rendered(F.WavFile(Audible(scripts(CueOf(t)), t.Expected()), t.opts))
    else Failed
  }

  /** What a read alone does, given the outcome of the render it may need: its
      reply and the cache it leaves. */
  function SoloRead(cache: L.Lru, maxBytes: int, header: seq<byte>, q: Read, result: Outcome): (Reply, L.Lru) {
    match L.Lookup(cache, q.k)
    case Some(data) => (Data(SliceAt(data, q.n, q.off)), L.Touch(cache, q.k))
    case None =>
      if q.off < |header| then (Data(SliceAt(header, q.n, q.off)), cache)
      else
        match result
        case Failed => (EIO, cache)
        case Rendered(data) => (Data(SliceAt(data, q.n, q.off)), L.Store(cache, q.k, data, maxBytes))
  }

  class TrackFile {
    const entry: TrackEntry
    const k: L.Key
    const header: seq<byte>
    const estimatedSize: int
    const cache: Cache

    predicate Announces() {
      && header == F.WavHeader(entry.Expected() * 2, entry.opts)
      && estimatedSize == |header| + entry.Expected() * 2
    }

    /** newTrackFile: header and size come from the durations alone. */
    constructor (sourcePath: string, t: TrackEntry, cache: Cache)
      ensures entry == t && k == L.Key(sourcePath, t.trackIdx) && this.cache == cache && Announces()
    {
      var headerBytes := Muxer.HeaderBytes(t.TotalMs(), t.opts);
      var size := Muxer.EstimatedSize(t.TotalMs(), t.opts);
      entry := t;
      k := L.Key(sourcePath, t.trackIdx);
      header := headerBytes;
      estimatedSize := size;
      this.cache := cache;
    }

    /** trackStore.render for a caller that finds no flight to join. */
    method Render(setup: Setup, emu: Emulator) returns (r: Option<seq<byte>>)
      requires cache.Valid() && entry.InRange()
      requires emu !in cache.Footprint()
      modifies cache.Footprint(), emu
      ensures cache.Valid()
      ensures var was := old(cache.Contents());
              match L.Lookup(was, k)
              case Some(data) => r == Some(data) && cache.Contents() == L.Touch(was, k)
              case None =>
                match RenderOutcome(setup, emu.scripts, entry)
                case Failed => r == None && cache.Contents() == was
                case Rendered(data) =>
                  r == Some(data) && cache.Contents() == L.Store(was, k, data, cache.maxBytes)
    {
      var cached := cache.Get(k);
      if cached.Some? {
        return cached;
      }
      var rendered := RenderTrack(setup, emu, entry);
      if rendered.Err? {
        return None;
      }
      cache.Set(k, rendered.value);
      r := Some(rendered.value);
    }

    method Read(n: nat, off: nat, setup: Setup, emu: Emulator) returns (reply: Reply)
      requires cache.Valid() && entry.InRange()
      requires emu !in cache.Footprint()
      modifies cache.Footprint(), emu
      ensures cache.Valid()
      ensures (reply, cache.Contents())
              == SoloRead(old(cache.Contents()), cache.maxBytes, header, ReadProtocol.Read(k, off, n),
                          RenderOutcome(setup, emu.scripts, entry))
    {
      var data := cache.Get(k);
      if data.Some? {
        return Data(SliceAt(data.value, n, off));
      }
      if off < |header| {
        return Data(SliceAt(header, n, off));
      }
      var wavBytes := Render(setup, emu);
      if wavBytes.None? {
        return EIO;
      }
      reply := Data(SliceAt(wavBytes.value, n, off));
    }
  }
}
