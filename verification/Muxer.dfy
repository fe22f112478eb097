/** internal/wav/muxer.go: the writer that fills and grows byte buffers in
    place.  Each method is proved to produce the layout module WavFormat
    defines, from which module WavRoundTrip derives what a reader sees. */
module Muxer {
  import opened Bytes
  import opened Decimal
  import Sequences
  import F = WavFormat

  /** Go's copy(dst[at:], src) for a source that fits. */
  method CopyAt(dst: array<byte>, at: nat, src: seq<byte>)
    requires at + |src| <= dst.Length
    modifies dst
    ensures dst[..] == old(dst[..at]) + src + old(dst[at + |src|..])
  {
    forall i | 0 <= i < |src| {
      dst[at + i] := src[i];
    }
  }

  /** n >> k and n & 0x7F are floor division and remainder by powers of two. */
  method PutSyncsafe(dst: array<byte>, at: nat, n: int)
    requires at + 4 <= dst.Length
    modifies dst
    ensures dst[..] == old(dst[..at]) + F.Syncsafe(n) + old(dst[at + 4..])
  {
    dst[at] := n / 0x20_0000 % 0x80;
    dst[at + 1] := n / 0x4000 % 0x80;
    dst[at + 2] := n / 0x80 % 0x80;
    dst[at + 3] := n % 0x80;
  }

  method TextFrame(id: FourCC, text: seq<byte>) returns (frame: seq<byte>)
    ensures frame == F.TextFrame(id, text)
  {
    if text == [] {
      return [];
    }
    var dataLen := 1 + |text|;
    var buf := new byte[11 + |text|](_ => 0);
    CopyAt(buf, 0, IdBytes(id));
    PutSyncsafe(buf, 4, dataLen);
    buf[10] := 0x03;
    assert buf[..11] == IdBytes(id) + F.Syncsafe(dataLen) + [0, 0] + [3];
    CopyAt(buf, 11, text);
    frame := buf[..];
    Sequences.Regroup(IdBytes(id) + F.Syncsafe(dataLen) + [0, 0], [3], text);
  }

  method BuildFrames(meta: F.Metadata) returns (frames: seq<byte>)
    ensures frames == F.Frames(meta)
  {
    var frame := TextFrame(F.TIT2, meta.title);
    frames := frame;
    frame := TextFrame(F.TPE1, meta.artist);
    frames := frames + frame;
    frame := TextFrame(F.TALB, meta.album);
    frames := frames + frame;
    frame := TextFrame(F.TPE2, meta.albumArtist);
    frames := frames + frame;
    if meta.track > 0 {
      frame := TextFrame(F.TRCK, ToBytes(Digits(meta.track)));
      frames := frames + frame;
    }
  }

  method BuildId3v2(meta: F.Metadata) returns (b: seq<byte>)
    ensures b == F.Id3Tag(meta)
  {
    var frames := BuildFrames(meta);
    var tag := new byte[10](_ => 0);
    CopyAt(tag, 0, [0x49, 0x44, 0x33]);
    tag[3] := 0x04;
    tag[4] := 0x00;
    tag[5] := 0x00;
    PutSyncsafe(tag, 6, |frames|);
    assert tag[..] == [0x49, 0x44, 0x33, 4, 0, 0] + F.Syncsafe(|frames|);
    b := tag[..] + frames;
  }

  method InfoSubchunk(id: FourCC, text: seq<byte>) returns (b: seq<byte>)
    ensures b == F.RiffChunk(id, text + [0])
  {
    var strLen := |text| + 1;
    var total := 8 + F.PaddedSize(strLen);
    var buf := new byte[total](_ => 0);
    ghost var b0 := buf[..];
    CopyAt(buf, 0, IdBytes(id));
    ghost var b1 := buf[..];
    CopyAt(buf, 4, LE32(strLen));
    ghost var b2 := buf[..];
    CopyAt(buf, 8, text);
    b := buf[..];
    Filled(b0, b1, b2, b, IdBytes(id), LE32(strLen), text, strLen % 2);
  }

  /** Three copies into a zeroed buffer that is one byte and a pad longer. */
  lemma Filled(b0: seq<byte>, b1: seq<byte>, b2: seq<byte>, b: seq<byte>, id: seq<byte>, size: seq<byte>,
               text: seq<byte>, pad: nat)
    requires |id| == |size| == 4 && |b0| == |b1| == |b2| == 9 + |text| + pad
    requires forall i :: 0 <= i < |b0| ==> b0[i] == 0
    requires b1 == b0[..0] + id + b0[4..] && b2 == b1[..4] + size + b1[8..]
    requires b == b2[..8] + text + b2[8 + |text|..]
    ensures b == id + size + (text + [0]) + Zeros(pad)
  {
    assert b1[..4] == id && b1[8..] == b0[8..];
    assert b2[..8] == id + size && b2[8..] == b0[8..];
    assert b2[8 + |text|..] == b0[8 + |text|..] == [0] + Zeros(pad);
  }

  method BuildListInfo(meta: F.Metadata) returns (b: seq<byte>)
    ensures b == F.ListInfo(meta)
  {
    var subchunks: seq<byte> := [];
    if meta.title != [] {
      var s := InfoSubchunk(F.INAM, meta.title);
      subchunks := subchunks + s;
    }
    assert subchunks == F.InfoSubchunk(F.INAM, meta.title);
    if meta.artist != [] {
      var s := InfoSubchunk(F.IART, meta.artist);
      subchunks := subchunks + s;
    }
    assert subchunks == F.InfoSubchunk(F.INAM, meta.title) + F.InfoSubchunk(F.IART, meta.artist);
    if meta.album != [] {
      var s := InfoSubchunk(F.IPRD, meta.album);
      subchunks := subchunks + s;
    }
    assert subchunks == F.InfoSubchunks(meta);
    F.InfoSubchunksEven(meta);
    if |subchunks| == 0 {
      return [];
    }
    b := ListChunk(subchunks);
  }

  /** The buffer BuildListInfo fills once it knows its subchunks. */
  method ListChunk(subchunks: seq<byte>) returns (b: seq<byte>)
    requires |subchunks| % 2 == 0
    ensures b == F.RiffChunk(F.LIST, IdBytes(F.INFO) + subchunks)
  {
    var buf := new byte[12 + |subchunks|](_ => 0);
    CopyAt(buf, 0, IdBytes(F.LIST));
    assert buf[..4] == IdBytes(F.LIST);
    CopyAt(buf, 4, LE32(4 + |subchunks|));
    assert buf[..8] == IdBytes(F.LIST) + LE32(4 + |subchunks|);
    CopyAt(buf, 8, IdBytes(F.INFO));
    assert buf[..12] == IdBytes(F.LIST) + LE32(4 + |subchunks|) + IdBytes(F.INFO);
    CopyAt(buf, 12, subchunks);
    b := buf[..];
    ListPieces(IdBytes(F.LIST), LE32(4 + |subchunks|), IdBytes(F.INFO), subchunks);
  }

  lemma ListPieces(id: seq<byte>, size: seq<byte>, info: seq<byte>, subchunks: seq<byte>)
    ensures id + size + info + subchunks == id + size + (info + subchunks) + Zeros(0)
  {
  }

  /** Grows the buffer field by field and patches the RIFF size at the end. */
  method Header(pcmBytes: int, opts: F.Options) returns (b: seq<byte>)
    ensures b == F.WavHeader(pcmBytes, opts)
  {
    b := IdBytes(F.RIFF) + [0, 0, 0, 0]; // the size is not known yet
    b := AppendBody(b, pcmBytes, opts);
    b := PatchSize(b, F.HeaderBody(pcmBytes, opts), pcmBytes);
  }

  method AppendBody(before: seq<byte>, pcmBytes: int, opts: F.Options) returns (b: seq<byte>)
    ensures b == before + F.HeaderBody(pcmBytes, opts)
  {
    var id3 := BuildId3v2(opts.metadata);
    b := before + IdBytes(F.WAVE);
    b := AppendFmt(b, opts);
    b := AppendId3(b, id3);

    var list := BuildListInfo(opts.metadata);
    b := b + list;

    b := b + IdBytes(F.DATA);
    b := b + LE32(pcmBytes);
    Regroup(before, IdBytes(F.WAVE), F.RiffChunk(F.FMT, F.FmtPayload(opts)), F.RiffChunk(F.ID3, id3),
            list, IdBytes(F.DATA), LE32(pcmBytes));
  }

  lemma Regroup(s: seq<byte>, a: seq<byte>, b: seq<byte>, c: seq<byte>, d: seq<byte>, e: seq<byte>, f: seq<byte>)
    ensures s + a + b + c + d + e + f == s + (a + b + c + d + e + f)
  {
  }

  method AppendFmt(before: seq<byte>, opts: F.Options) returns (b: seq<byte>)
    ensures b == before + F.RiffChunk(F.FMT, F.FmtPayload(opts))
  {
    b := before + IdBytes(F.FMT);
    b := b + LE32(16);
    ghost var start := b;
    b := b + LE16(1);
    b := b + LE16(opts.channels);
    b := b + LE32(opts.sampleRate);
    b := b + LE32(opts.sampleRate * opts.channels * 2);
    b := b + LE16(opts.channels * 2);
    b := b + LE16(16);
    assert b == start + F.FmtPayload(opts) by {
      Regroup(start, LE16(1), LE16(opts.channels), LE32(opts.sampleRate),
              LE32(opts.sampleRate * opts.channels * 2), LE16(opts.channels * 2), LE16(16));
    }
    assert start + F.FmtPayload(opts) == before + (IdBytes(F.FMT) + LE32(16) + F.FmtPayload(opts) + Zeros(0));
  }

  method AppendId3(before: seq<byte>, id3: seq<byte>) returns (b: seq<byte>)
    ensures b == before + F.RiffChunk(F.ID3, id3)
  {
    b := before + IdBytes(F.ID3);
    b := b + LE32(|id3|);
    b := b + id3;
    if |id3| % 2 == 1 {
      b := b + [0]; // chunks stay even
    }
    assert b == before + IdBytes(F.ID3) + LE32(|id3|) + id3 + Zeros(|id3| % 2);
  }

  /** le.PutUint32(b[4:], ...): overwrites the four placeholder bytes. */
  method PatchSize(b: seq<byte>, ghost body: seq<byte>, pcmBytes: int) returns (patched: seq<byte>)
    requires b == IdBytes(F.RIFF) + [0, 0, 0, 0] + body
    ensures patched == IdBytes(F.RIFF) + LE32(|body| + pcmBytes) + body
  {
    patched := b[..4] + LE32(|b| - 8 + pcmBytes) + b[8..];
  }

  method Encode(samples: seq<int16>, opts: F.Options) returns (wav: seq<byte>)
    ensures wav == F.WavFile(samples, opts)
  {
    var pcmBytes := |samples| * 2;
    var header := Header(pcmBytes, opts);
    wav := AppendSamples(header, samples);
  }

  /** Encode's loop over the samples, into the grown buffer. */
  method AppendSamples(header: seq<byte>, samples: seq<int16>) returns (wav: seq<byte>)
    ensures wav == header + F.PcmBytes(samples)
  {
    var n := |header|;
    var b := new byte[n + 2 * |samples|](_ => 0);
    CopyAt(b, 0, header);
    for i := 0 to |samples|
      invariant b[..n + 2 * i] == header + F.PcmBytes(samples[..i])
    {
      var u := LE16(samples[i]);
      OneSampleMore(header, samples, i);
      b[n + 2 * i], b[n + 2 * i + 1] := u[0], u[1];
      assert b[..n + 2 * (i + 1)] == b[..n + 2 * i] + u;
    }
    assert samples[..|samples|] == samples;
    wav := b[..];
    assert wav == b[..n + 2 * |samples|];
  }

  lemma OneSampleMore(header: seq<byte>, samples: seq<int16>, i: nat)
    requires i < |samples|
    ensures header + F.PcmBytes(samples[..i + 1]) == header + F.PcmBytes(samples[..i]) + LE16(samples[i])
  {
    assert samples[..i + 1][..i] == samples[..i];
  }

  method HeaderBytes(durationMs: int, opts: F.Options) returns (b: seq<byte>)
    ensures b == F.WavHeader(F.SampleCount(durationMs, opts) * 2, opts)
  {
    b := Header(F.SampleCount(durationMs, opts) * 2, opts);
  }

  /** What getattr reports, computed before any audio exists. */
  method EstimatedSize(durationMs: int, opts: F.Options) returns (size: int)
    ensures size == |F.WavHeader(F.SampleCount(durationMs, opts) * 2, opts)| + F.SampleCount(durationMs, opts) * 2
    ensures forall samples: seq<int16> :: |samples| == F.SampleCount(durationMs, opts)
              ==> size == |F.WavFile(samples, opts)|
  {
    var h := HeaderBytes(durationMs, opts);
    size := |h| + F.SampleCount(durationMs, opts) * 2;
  }
}
