/** The promises of the parts put together: what a client of the mount gets. */
module EndToEnd {
  import opened Bytes
  import opened Wrappers
  import opened WavFormat
  import opened WavReader
  import opened WavRoundTrip
  import opened Render
  import opened TrackFiles
  import opened SequentialReader
  import opened ProtocolProgress
  import opened Text
  import L = LruSpec
  import N = TrackNames
  import opened Folders
  import S = StackInclusion
  import P = ReadProtocol
  import T = ProtocolTheorems

  /** Track k is served from entry t: its header is the one newTrackFile builds,
      and its renders are what RenderTrack can produce. */
  ghost predicate Serves(cfg: P.Config, k: P.Key, t: TrackEntry) {
    && t.InRange() && 0 <= t.Expected()
    && cfg.header(k) == WavHeader(t.Expected() * 2, t.opts)
    && forall data :: cfg.renders(k, data) ==> IsRenderOf(t, data)
  }

  ghost predicate IsRenderOf(t: TrackEntry, data: seq<byte>) {
    exists samples: seq<int16> :: |samples| == t.Expected() && data == WavFile(samples, t.opts)
  }

  /** What getattr reports for t. */
  function AnnouncedSize(t: TrackEntry): int {
    |WavHeader(t.Expected() * 2, t.opts)| + t.Expected() * 2
  }

  /** RenderTrack only ever produces renders of its entry. */
  lemma RendersFit(setup: Setup, scripts: Cue -> Script, t: TrackEntry)
    requires t.InRange()
    ensures RenderOutcome(setup, scripts, t).Rendered? ==> IsRenderOf(t, RenderOutcome(setup, scripts, t).data)
  {
    ExpectedBelowCeiling(t);
    var samples := Audible(scripts(CueOf(t)), t.Expected());
    assert |samples| == t.Expected();
  }

  /** Any reader, any interleaving, any emulator, deterministic or not: answers
      are as long as the announced size implies and start with the header. */
  lemma AnswersHaveAnnouncedSize(cfg: P.Config, steps: seq<P.Step>, r: nat, t: TrackEntry)
    requires P.Run(cfg, steps).Some? && r < |cfg.asked| && Serves(cfg, cfg.asked[r].k, t)
    ensures var s, q := P.Run(cfg, steps).value, cfg.asked[r];
            r < |s.readers| && T.Sized(s.readers[r], q, cfg.header(q.k), AnnouncedSize(t))
  {
    forall data | cfg.renders(cfg.asked[r].k, data)
      ensures |data| == AnnouncedSize(t) && cfg.header(cfg.asked[r].k) <= data
    {
      RenderHasSize(t, data);
    }
    T.ReplySizes(cfg, steps, r, AnnouncedSize(t));
  }

  lemma RenderHasSize(t: TrackEntry, data: seq<byte>)
    requires t.InRange() && IsRenderOf(t, data)
    ensures |data| == AnnouncedSize(t) && WavHeader(t.Expected() * 2, t.opts) <= data
  {
    var samples: seq<int16> :| |samples| == t.Expected() && data == WavFile(samples, t.opts);
    SizeAndHeaderPromise(samples, t);
  }

  /** The mount's own settings: 44100 Hz stereo.  Clamped durations then keep
      every file below 4 GiB as long as its tag is writable. */
  lemma MountedFilesFit(samples: seq<int16>, t: TrackEntry)
    requires t.InRange() && t.opts.sampleRate == 44100 && t.opts.channels == 2
    requires |samples| == t.Expected() && |Frames(t.opts.metadata)| < TWO_28
    ensures |WavFile(samples, t.opts)| - 8 < TWO_32 && FormatFits(t.opts)
  {
    MountedSamples(t);
    SizeAndHeaderPromise(samples, t);
    HeaderFits(t.Expected() * 2, t.opts);
  }

  lemma MountedSamples(t: TrackEntry)
    requires t.InRange() && t.opts.sampleRate == 44100 && t.opts.channels == 2
    ensures 0 <= t.Expected() <= 111132000
  {
    ExpectedBelowCeiling(t);
  }

  lemma HeaderFits(pcmBytes: int, opts: Options)
    requires |Frames(opts.metadata)| < TWO_28
    ensures |WavHeader(pcmBytes, opts)| < 3 * TWO_28
  {
    HeaderLength(pcmBytes, opts);
    ListInfoFits(opts.metadata);
    assert |Id3Tag(opts.metadata)| == 10 + |Frames(opts.metadata)|;
  }

  lemma ListInfoFits(m: Metadata)
    ensures |ListInfo(m)| <= |Frames(m)| + 42
  {
    InfoLength(INAM, m.title);
    InfoLength(IART, m.artist);
    InfoLength(IPRD, m.album);
    LengthOfThree(InfoSubchunk(INAM, m.title), InfoSubchunk(IART, m.artist), InfoSubchunk(IPRD, m.album));
    FramesLength(m);
    assert |IdBytes(INFO) + InfoSubchunks(m)| == 4 + |InfoSubchunks(m)|;
  }

  lemma InfoLength(id: FourCC, text: seq<byte>)
    ensures |InfoSubchunk(id, text)| <= |text| + 10
  {
  }

  lemma LengthOfThree(a: seq<byte>, b: seq<byte>, c: seq<byte>)
    ensures |a + b + c| == |a| + |b| + |c|
  {
  }

  lemma FramesLength(m: Metadata)
    ensures |m.title| + |m.artist| + |m.album| <= |Frames(m)|
  {
  }

  /** Any WAV file the mount serves reads back as what went in. */
  lemma MountedFileDecodes(samples: seq<int16>, t: TrackEntry)
    requires t.InRange() && t.opts.sampleRate == 44100 && t.opts.channels == 2
    requires |samples| == t.Expected() && |Frames(t.opts.metadata)| < TWO_28
    ensures ReadWav(WavFile(samples, t.opts))
            == Some(Wav(Format(1, 2, 44100, 176400, 4, 16), Tagged(t.opts.metadata),
                        Info(t.opts.metadata.title, t.opts.metadata.artist, t.opts.metadata.album), samples))
  {
    MountedFilesFit(samples, t);
    WavRoundTrips(samples, t.opts);
    StereoFormat(t.opts);
  }

  lemma StereoFormat(opts: Options)
    requires FormatFits(opts) && opts.sampleRate == 44100 && opts.channels == 2
    ensures FormatOf(opts) == Format(1, 2, 44100, 176400, 4, 16)
  {
  }

  /** Readers rs are those of a client of track k who reads front to back, n bytes
      at a time, long enough for a file of the announced size; the run has come to
      its end and no render of the track failed. */
  ghost predicate PatientClient(
      cfg: P.Config, steps: seq<P.Step>, rs: seq<nat>, k: P.Key, n: nat, size: int)
  {
    && P.Run(cfg, steps).Some? && n > 0
    && Ended(cfg, P.Run(cfg, steps).value)
    && P.Run(cfg, steps).value.failed[k] == 0
    && IsClient(cfg, P.Run(cfg, steps).value, rs, k, n)
    && |rs| > MaxReplies(size, n)
  }

  lemma ClientGetsFile(
      cfg: P.Config, steps: seq<P.Step>, rs: seq<nat>, k: P.Key, n: nat, t: TrackEntry, samples: seq<int16>)
    returns (m: nat)
    requires PatientClient(cfg, steps, rs, k, n, AnnouncedSize(t))
    requires Serves(cfg, k, t) && |samples| == t.Expected()
    requires forall data :: cfg.renders(k, data) ==> data == WavFile(samples, t.opts)
    ensures var replies := GotAll(P.Run(cfg, steps).value, rs);
            && m < |rs| && replies[m] == [] && AllNonEmpty(replies[..m])
            && Joined(replies[..m]) == WavFile(samples, t.opts)
  {
    CanonicalFile(cfg, k, t, samples);
    m := SequentialReadGetsTheFile(cfg, steps, rs, k, n, WavFile(samples, t.opts));
  }

  lemma CanonicalFile(cfg: P.Config, k: P.Key, t: TrackEntry, samples: seq<int16>)
    requires Serves(cfg, k, t) && |samples| == t.Expected()
    requires forall data :: cfg.renders(k, data) ==> data == WavFile(samples, t.opts)
    ensures T.IsCanonical(cfg, k, WavFile(samples, t.opts))
    ensures |WavFile(samples, t.opts)| == AnnouncedSize(t)
  {
    SizeAndHeaderPromise(samples, t);
  }

  /** A client that reads a track of the mount front to back, racing anyone, meets
      an empty reply, and the replies before it make a WAV file of the announced
      size from which a reader recovers the rate, the tags and every sample of the
      render. */
  lemma ClientDecodesTrack(
      cfg: P.Config, steps: seq<P.Step>, rs: seq<nat>, k: P.Key, n: nat, t: TrackEntry, samples: seq<int16>)
    returns (m: nat)
    requires PatientClient(cfg, steps, rs, k, n, AnnouncedSize(t))
    requires Serves(cfg, k, t) && t.opts.sampleRate == 44100 && t.opts.channels == 2
    requires |Frames(t.opts.metadata)| < TWO_28
    requires |samples| == t.Expected()
    requires forall data :: cfg.renders(k, data) ==> data == WavFile(samples, t.opts)
    ensures var replies := GotAll(P.Run(cfg, steps).value, rs);
            && m < |rs| && replies[m] == [] && AllNonEmpty(replies[..m])
            && |Joined(replies[..m])| == AnnouncedSize(t)
            && ReadWav(Joined(replies[..m]))
               == Some(Wav(Format(1, 2, 44100, 176400, 4, 16), Tagged(t.opts.metadata),
                           Info(t.opts.metadata.title, t.opts.metadata.artist, t.opts.metadata.album), samples))
  {
    m := ClientGetsFile(cfg, steps, rs, k, n, t, samples);
    SizeAndHeaderPromise(samples, t);
    MountedFileDecodes(samples, t);
  }

  // ---- From a parsed file and an emulator to a client ------------------------

  /** Entry t of the file at path is served by emulators that behave as scripts
      say: one script for each track number of the file, and each sample rate and
      fade it may be asked for. */
  ghost predicate Plays(cfg: P.Config, path: string, t: TrackEntry, scripts: Cue -> Script)
    requires t.InRange()
  {
    var k := L.Key(path, t.trackIdx);
    && cfg.header(k) == WavHeader(t.Expected() * 2, t.opts)
    && forall data :: cfg.renders(k, data) ==> RenderOutcome(Starts, scripts, t) == P.Rendered(data)
  }

  /** Listed track i, in a folder whose SPC files share an album artist (for other
      files it is empty). */
  function Listed(cf: N.ChipFile, i: nat, playMs: int, fadeMs: int, enc: N.Encoding, albumArtist: seq<byte>): TrackEntry
    requires i < |cf.tracks|
  {
    WithAlbumArtist(N.EntryOf(cf, i, playMs, fadeMs, enc), albumArtist)
  }

  /** What a reader must find in its file. */
  function DecodedTrack(cf: N.ChipFile, i: nat, enc: N.Encoding, albumArtist: seq<byte>, samples: seq<int16>): Wav
    requires i < |cf.tracks|
  {
    var title := enc.encode(N.TitleOf(cf, i, enc));
    var artist, album := enc.encode(CleanTag(cf.artist, enc.isSpace)), enc.encode(CleanTag(cf.album, enc.isSpace));
    Wav(Format(1, 2, 44100, 176400, 4, 16), Metadata(title, artist, album, albumArtist, i + 1),
        Info(title, artist, album), samples)
  }

  lemma PlaysServes(cfg: P.Config, path: string, t: TrackEntry, scripts: Cue -> Script)
    requires t.InRange() && Plays(cfg, path, t, scripts)
    ensures var k := L.Key(path, t.trackIdx);
            && Serves(cfg, k, t)
            && forall data :: cfg.renders(k, data) ==>
                 data == WavFile(Audible(scripts(CueOf(t)), t.Expected()), t.opts)
  {
    ExpectedBelowCeiling(t);
    forall data | cfg.renders(L.Key(path, t.trackIdx), data) ensures IsRenderOf(t, data) {
      RendersFit(Starts, scripts, t);
    }
  }

  lemma ListedTags(
      cf: N.ChipFile, i: nat, playMs: int, fadeMs: int, enc: N.Encoding, albumArtist: seq<byte>, samples: seq<int16>)
    requires i < |cf.tracks|
    ensures var m := Listed(cf, i, playMs, fadeMs, enc, albumArtist).opts.metadata;
            Wav(Format(1, 2, 44100, 176400, 4, 16), Tagged(m), Info(m.title, m.artist, m.album), samples)
            == DecodedTrack(cf, i, enc, albumArtist, samples)
  {
  }

  lemma ListedEntry(cf: N.ChipFile, i: nat, playMs: int, fadeMs: int, enc: N.Encoding, albumArtist: seq<byte>)
    requires i < |cf.tracks| && playMs > 0 && fadeMs > 0
    ensures var t := Listed(cf, i, playMs, fadeMs, enc, albumArtist);
            && t.InRange() && t.trackIdx == i && t.opts.sampleRate == 44100 && t.opts.channels == 2
  {
  }

  /** For every track listed for a parsed file, whatever its emulators play: the
      client that reads the i-th name's file decodes that track's title, the file's
      artist and album, the folder's album artist, number i + 1, and exactly what
      the emulator plays at 44100 Hz as track i, told to fade as the name is listed,
      in the listed play time and fade. */
  lemma ListedTrackDecodes(
      cfg: P.Config, steps: seq<P.Step>, rs: seq<nat>, path: string, n: nat, cf: N.ChipFile, i: nat,
      playMs: int, fadeMs: int, enc: N.Encoding, albumArtist: seq<byte>, scripts: Cue -> Script)
    returns (m: nat, frames: nat)
    requires i < |cf.tracks| && playMs > 0 && fadeMs > 0
    requires var t := Listed(cf, i, playMs, fadeMs, enc, albumArtist);
             && t.InRange() && Plays(cfg, path, t, scripts)
             && |Frames(t.opts.metadata)| < TWO_28
             && PatientClient(cfg, steps, rs, L.Key(path, t.trackIdx), n, AnnouncedSize(t))
    ensures var replies := GotAll(P.Run(cfg, steps).value, rs);
            var t := Listed(cf, i, playMs, fadeMs, enc, albumArtist);
            && m < |rs| && replies[m] == [] && AllNonEmpty(replies[..m])
            && |Joined(replies[..m])| == AnnouncedSize(t)
            && frames * 1000 <= (t.playMs + t.fadeMs) * 44100 < (frames + 1) * 1000
            && ReadWav(Joined(replies[..m]))
               == Some(DecodedTrack(cf, i, enc, albumArtist,
                                    Audible(scripts(Cue(44100, i, t.playMs, t.fadeMs)), 2 * frames)))
  {
    var t := Listed(cf, i, playMs, fadeMs, enc, albumArtist);
    ListedEntry(cf, i, playMs, fadeMs, enc, albumArtist);
    frames := ExpectedMeaning(t);
    PlaysServes(cfg, path, t, scripts);
    ListedTags(cf, i, playMs, fadeMs, enc, albumArtist, Audible(scripts(CueOf(t)), 2 * frames));
    m := ClientDecodesTrack(cfg, steps, rs, L.Key(path, i), n, t, Audible(scripts(CueOf(t)), 2 * frames));
  }

  // ---- Growing the cache -----------------------------------------------------

  /** Take any three tracks the first of which is bigger than the third.  There are
      two capacities for which the trace past x, past y, header of x, past z leaves
      y in the smaller cache and not in the larger. */
  lemma GrowingLosesAHit(
      wav: P.Key -> seq<byte>, x: P.Key, y: P.Key, z: P.Key, tx: TrackEntry, ty: TrackEntry, tz: TrackEntry)
    returns (small: int, large: int)
    requires x != y && y != z && x != z
    requires tx.InRange() && ty.InRange() && tz.InRange()
    requires IsRenderOf(tx, wav(x)) && IsRenderOf(ty, wav(y)) && IsRenderOf(tz, wav(z))
    requires AnnouncedSize(tx) > AnnouncedSize(tz)
    ensures 0 < small < large
    ensures var trace := [S.Pcm(x), S.Pcm(y), S.Hdr(x), S.Pcm(z)];
            && L.Has(S.RunReads(trace, wav, small), y)
            && !L.Has(S.RunReads(trace, wav, large), y)
  {
    RenderHasSize(tx, wav(x));
    RenderHasSize(ty, wav(y));
    RenderHasSize(tz, wav(z));
    HeaderLength(tz.Expected() * 2, tz.opts);
    small, large := |wav(y)| + |wav(z)|, |wav(x)| + |wav(y)|;
    S.HeaderReadsBreakInclusion(wav, x, y, z, small, large);
  }

  /** Such tracks are easy to come by: with the same tags, the longer of two tracks
      is the bigger as soon as it is longer by a millisecond. */
  lemma LongerIsBigger(tx: TrackEntry, tz: TrackEntry)
    requires tx.InRange() && tz.InRange() && tx.opts == tz.opts
    requires tx.opts.sampleRate == 44100 && tx.opts.channels == 2
    requires tx.TotalMs() > tz.TotalMs()
    ensures AnnouncedSize(tx) > AnnouncedSize(tz)
  {
    HeaderLength(tx.Expected() * 2, tx.opts);
    HeaderLength(tz.Expected() * 2, tz.opts);
    LongerHasMore(tx.TotalMs(), tz.TotalMs());
  }

  lemma LongerHasMore(a: nat, b: nat)
    requires a > b
    ensures a * 44100 / 1000 > b * 44100 / 1000
  {
  }
}
