/** The layout of the WAV files ChipFS serves, written as values: RIFF chunks,
    an embedded ID3v2.4 tag and a LIST INFO list.  Module Muxer builds these
    bytes the way internal/wav/muxer.go does; module WavReader reads them. */
module WavFormat {
  import opened Bytes
  import opened Decimal

  /** Tag texts are Go strings, that is, byte sequences. */
  datatype Metadata = Metadata(
    title: seq<byte>, artist: seq<byte>, album: seq<byte>, albumArtist: seq<byte>, track: int)

  datatype Options = Options(sampleRate: int, channels: int, metadata: Metadata)

  const RIFF := FourCC(0x52, 0x49, 0x46, 0x46)
  const WAVE := FourCC(0x57, 0x41, 0x56, 0x45)
  const FMT := FourCC(0x66, 0x6D, 0x74, 0x20)
  const ID3 := FourCC(0x69, 0x64, 0x33, 0x20)
  const LIST := FourCC(0x4C, 0x49, 0x53, 0x54)
  const INFO := FourCC(0x49, 0x4E, 0x46, 0x4F)
  const DATA := FourCC(0x64, 0x61, 0x74, 0x61)
  const INAM := FourCC(0x49, 0x4E, 0x41, 0x4D)
  const IART := FourCC(0x49, 0x41, 0x52, 0x54)
  const IPRD := FourCC(0x49, 0x50, 0x52, 0x44)
  const TIT2 := FourCC(0x54, 0x49, 0x54, 0x32)
  const TPE1 := FourCC(0x54, 0x50, 0x45, 0x31)
  const TALB := FourCC(0x54, 0x41, 0x4C, 0x42)
  const TPE2 := FourCC(0x54, 0x50, 0x45, 0x32)
  const TRCK := FourCC(0x54, 0x52, 0x43, 0x4B)

  /** Go's integer division: the quotient is truncated toward zero. */
  function TruncDiv(a: int, b: int): int
    requires b > 0
  {
    if a < 0 then -(-a / b) else a / b
  }

  lemma TruncDivTowardZero(a: int, b: int)
    requires b > 0
    ensures var r := a - TruncDiv(a, b) * b;
            -b < r < b && (a >= 0 ==> r >= 0) && (a <= 0 ==> r <= 0)
  {
    if a < 0 {
      Euclid(-a, b);
      Negated(-a / b, b);
    } else {
      Euclid(a, b);
    }
  }

  lemma Negated(q: int, b: int)
    ensures -q * b == -(q * b)
  {
  }

  lemma Euclid(m: nat, b: nat)
    requires b > 0
    ensures m == m / b * b + m % b && 0 <= m % b < b
  {
  }

  function SampleCount(durationMs: int, opts: Options): int {
    TruncDiv(durationMs * opts.sampleRate, 1000) * opts.channels
  }

  function PaddedSize(n: nat): nat {
    if n % 2 == 0 then n else n + 1
  }

  // ---- ID3v2.4 -------------------------------------------------------------

  /** Section 6.2 of the ID3v2.4.0 main structure: seven bits to a byte. */
  function Syncsafe(n: int): (b: seq<byte>)
    ensures |b| == 4
  {
    [n / 0x20_0000 % 0x80, n / 0x4000 % 0x80, n / 0x80 % 0x80, n % 0x80]
  }

  function TextFrame(id: FourCC, text: seq<byte>): seq<byte> {
    if text == [] then [] else IdBytes(id) + Syncsafe(1 + |text|) + [0, 0] + ([3] + text)
  }

  function TrackText(track: int): seq<byte> {
    if track > 0 then ToBytes(Digits(track)) else []
  }

  function Frames(m: Metadata): seq<byte> {
    TextFrame(TIT2, m.title) + TextFrame(TPE1, m.artist) + TextFrame(TALB, m.album) +
    TextFrame(TPE2, m.albumArtist) + TextFrame(TRCK, TrackText(m.track))
  }

  function Id3Tag(m: Metadata): seq<byte> {
    [0x49, 0x44, 0x33, 4, 0, 0] + Syncsafe(|Frames(m)|) + Frames(m)
  }

  // ---- RIFF ----------------------------------------------------------------

  /** A chunk: identifier, payload length, payload, and a zero byte when that
      length is odd.  The pad byte is not counted in the length. */
  function RiffChunk(id: FourCC, payload: seq<byte>): (b: seq<byte>)
    ensures |b| == 8 + PaddedSize(|payload|)
  {
    IdBytes(id) + LE32(|payload|) + payload + Zeros(|payload| % 2)
  }

  function InfoSubchunk(id: FourCC, text: seq<byte>): seq<byte> {
    if text == [] then [] else RiffChunk(id, text + [0])
  }

  function InfoSubchunks(m: Metadata): seq<byte> {
    InfoSubchunk(INAM, m.title) + InfoSubchunk(IART, m.artist) + InfoSubchunk(IPRD, m.album)
  }

  lemma InfoSubchunkEven(id: FourCC, text: seq<byte>)
    ensures |InfoSubchunk(id, text)| % 2 == 0
    ensures InfoSubchunk(id, text) == [] <==> text == []
  {
  }

  lemma InfoSubchunksEven(m: Metadata)
    ensures |InfoSubchunks(m)| % 2 == 0
    ensures InfoSubchunks(m) == [] <==> !HasInfo(m)
  {
    InfoSubchunkEven(INAM, m.title);
    InfoSubchunkEven(IART, m.artist);
    InfoSubchunkEven(IPRD, m.album);
    EvenThree(InfoSubchunk(INAM, m.title), InfoSubchunk(IART, m.artist), InfoSubchunk(IPRD, m.album));
  }

  lemma EvenThree(a: seq<byte>, b: seq<byte>, c: seq<byte>)
    requires |a| % 2 == 0 && |b| % 2 == 0 && |c| % 2 == 0
    ensures |a + b + c| % 2 == 0
    ensures a + b + c == [] <==> a == [] && b == [] && c == []
  {
  }

  predicate HasInfo(m: Metadata) {
    m.title != [] || m.artist != [] || m.album != []
  }

  function ListInfo(m: Metadata): seq<byte> {
    if HasInfo(m) then RiffChunk(LIST, IdBytes(INFO) + InfoSubchunks(m)) else []
  }

  function FmtPayload(opts: Options): (b: seq<byte>)
    ensures |b| == 16
  {
    LE16(1) + LE16(opts.channels) + LE32(opts.sampleRate) +
    LE32(opts.sampleRate * opts.channels * 2) + LE16(opts.channels * 2) + LE16(16)
  }

  /** Everything between the RIFF size field and the payload of "data". */
  function HeaderBody(pcmBytes: int, opts: Options): seq<byte> {
    IdBytes(WAVE) + RiffChunk(FMT, FmtPayload(opts)) + RiffChunk(ID3, Id3Tag(opts.metadata)) +
    ListInfo(opts.metadata) + IdBytes(DATA) + LE32(pcmBytes)
  }

  /** Every byte of the file before the samples. */
  function WavHeader(pcmBytes: int, opts: Options): seq<byte> {
    IdBytes(RIFF) + LE32(|HeaderBody(pcmBytes, opts)| + pcmBytes) + HeaderBody(pcmBytes, opts)
  }

  function PcmBytes(samples: seq<int16>): (b: seq<byte>)
    ensures |b| == 2 * |samples|
  {
    if samples == [] then []
    else PcmBytes(samples[..|samples| - 1]) + LE16(samples[|samples| - 1])
  }

  function WavFile(samples: seq<int16>, opts: Options): seq<byte> {
    WavHeader(2 * |samples|, opts) + PcmBytes(samples)
  }

  /** The header's length does not depend on the number of samples. */
  lemma HeaderLength(pcmBytes: int, opts: Options)
    ensures |WavHeader(pcmBytes, opts)|
            == 52 + PaddedSize(|Id3Tag(opts.metadata)|) + |ListInfo(opts.metadata)|
  {
  }
}
