/** A reader for RIFF/WAVE files, ID3v2.4 tags and LIST INFO lists, written from
    the formats and not from the writer: it trusts nothing but the size fields it
    meets, and rejects a file whose sizes do not add up. */
module WavReader {
  import opened Bytes
  import opened Decimal
  import opened Wrappers
  import F = WavFormat

  // The identifiers, as the formats spell them.
  const RIFF_ID := FourCC('R' as int, 'I' as int, 'F' as int, 'F' as int)
  const WAVE_ID := FourCC('W' as int, 'A' as int, 'V' as int, 'E' as int)
  const FMT_ID := FourCC('f' as int, 'm' as int, 't' as int, ' ' as int)
  const ID3_ID := FourCC('i' as int, 'd' as int, '3' as int, ' ' as int)
  const LIST_ID := FourCC('L' as int, 'I' as int, 'S' as int, 'T' as int)
  const INFO_ID := FourCC('I' as int, 'N' as int, 'F' as int, 'O' as int)
  const DATA_ID := FourCC('d' as int, 'a' as int, 't' as int, 'a' as int)
  const INAM_ID := FourCC('I' as int, 'N' as int, 'A' as int, 'M' as int)
  const IART_ID := FourCC('I' as int, 'A' as int, 'R' as int, 'T' as int)
  const IPRD_ID := FourCC('I' as int, 'P' as int, 'R' as int, 'D' as int)
  const TIT2_ID := FourCC('T' as int, 'I' as int, 'T' as int, '2' as int)
  const TPE1_ID := FourCC('T' as int, 'P' as int, 'E' as int, '1' as int)
  const TALB_ID := FourCC('T' as int, 'A' as int, 'L' as int, 'B' as int)
  const TPE2_ID := FourCC('T' as int, 'P' as int, 'E' as int, '2' as int)
  const TRCK_ID := FourCC('T' as int, 'R' as int, 'C' as int, 'K' as int)

  datatype Chunk = Chunk(id: FourCC, offset: nat, payload: seq<byte>)

  /** Walks the chunks of b, which starts at file offset at and must be used up
      exactly.  A payload of odd length is followed by a zero byte. */
  function Chunks(b: seq<byte>, at: nat): Option<seq<Chunk>>
    decreases |b|
  {
    if b == [] then Some([])
    else if |b| < 8 then None
    else
      var size := FromLE32(b[4..8]);
      var end := 8 + size + size % 2;
      if |b| < end || (size % 2 == 1 && b[end - 1] != 0) then None
      else
        match Chunks(b[end..], at + end)
        case None => None
        case Some(rest) => Some([Chunk(IdOf(b[..4]), at, b[8..8 + size])] + rest)
  }

  function ReadRiff(file: seq<byte>): Option<seq<Chunk>> {
    if |file| < 12 || IdOf(file[..4]) != RIFF_ID || IdOf(file[8..12]) != WAVE_ID || FromLE32(file[4..8]) != |file| - 8
    then None
    else Chunks(file[12..], 12)
  }

  function Find(chunks: seq<Chunk>, id: FourCC): Option<seq<byte>> {
    if chunks == [] then None
    else if chunks[0].id == id then Some(chunks[0].payload)
    else Find(chunks[1..], id)
  }

  // ---- fmt and data --------------------------------------------------------

  datatype Format = Format(
    tag: nat, channels: nat, sampleRate: nat, byteRate: nat, blockAlign: nat, bitsPerSample: nat)

  function ReadFmt(p: seq<byte>): Option<Format> {
    if |p| != 16 then None
    else Some(Format(FromLE16(p[..2]), FromLE16(p[2..4]), FromLE32(p[4..8]), FromLE32(p[8..12]),
                     FromLE16(p[12..14]), FromLE16(p[14..16])))
  }

  function ReadPcm(p: seq<byte>): seq<int16> {
    seq(|p| / 2, i requires 0 <= i < |p| / 2 => ToInt16(FromLE16(p[2 * i..2 * i + 2])))
  }

  // ---- ID3v2.4 -------------------------------------------------------------

  /** A four-byte integer of which each byte carries seven bits. */
  function FromSyncsafe(b: seq<byte>): nat
    requires |b| == 4
  {
    b[0] as int * 0x20_0000 + b[1] as int * 0x4000 + b[2] as int * 0x80 + b[3] as int
  }

  datatype Frame = Frame(id: FourCC, text: seq<byte>)

  /** Section 4 of the main structure: identifier, syncsafe size, two flag bytes
      (none is understood here); section 4.2 of the frames document: an encoding
      byte (3 is UTF-8) and the text. */
  function ReadFrames(b: seq<byte>): Option<seq<Frame>> {
    if b == [] then Some([])
    else if |b| < 10 then None
    else
      var size := FromSyncsafe(b[4..8]);
      if size < 1 || |b| < 10 + size || b[8] != 0 || b[9] != 0 || b[10] != 3 then None
      else
        match ReadFrames(b[10 + size..])
        case None => None
        case Some(rest) => Some([Frame(IdOf(b[..4]), b[11..10 + size])] + rest)
  }

  /** Section 3.1: "ID3", version 4.0, no flags, and the size of what follows. */
  function ReadId3(tag: seq<byte>): Option<seq<Frame>> {
    if |tag| < 10 || tag[..6] != [0x49, 0x44, 0x33, 4, 0, 0] || FromSyncsafe(tag[6..10]) != |tag| - 10
    then None
    else ReadFrames(tag[10..])
  }

  function FrameText(frames: seq<Frame>, id: FourCC): seq<byte> {
    if frames == [] then []
    else if frames[0].id == id then frames[0].text
    else FrameText(frames[1..], id)
  }

  /** A missing frame reads as empty, a missing track number as 0. */
  function TagMetadata(frames: seq<Frame>): F.Metadata {
    F.Metadata(FrameText(frames, TIT2_ID), FrameText(frames, TPE1_ID), FrameText(frames, TALB_ID),
               FrameText(frames, TPE2_ID), FromBytes(FrameText(frames, TRCK_ID)))
  }

  // ---- LIST INFO -----------------------------------------------------------

  datatype Info = Info(title: seq<byte>, artist: seq<byte>, album: seq<byte>)

  /** The text of a zero-terminated subchunk; empty if it is absent or lacks its
      terminator. */
  function InfoText(chunks: seq<Chunk>, id: FourCC): seq<byte> {
    match Find(chunks, id)
    case None => []
    case Some(p) => if p != [] && p[|p| - 1] == 0 then p[..|p| - 1] else []
  }

  function ReadInfo(p: seq<byte>): Option<Info> {
    if |p| < 4 || IdOf(p[..4]) != INFO_ID then None
    else
      match Chunks(p[4..], 4)
      case None => None
      case Some(cs) => Some(Info(InfoText(cs, INAM_ID), InfoText(cs, IART_ID), InfoText(cs, IPRD_ID)))
  }

  // ---- The whole file ------------------------------------------------------

  datatype Wav = Wav(format: Format, tags: F.Metadata, info: Info, samples: seq<int16>)

  function ReadWav(file: seq<byte>): Option<Wav> {
    match ReadRiff(file)
    case None => None
    case Some(cs) =>
      match (Find(cs, FMT_ID), Find(cs, ID3_ID), Find(cs, DATA_ID))
      case (Some(fmt), Some(id3), Some(data)) =>
        var info := match Find(cs, LIST_ID)
          case None => Some(Info([], [], []))
          case Some(p) => ReadInfo(p);
        (match (ReadFmt(fmt), ReadId3(id3), info)
         case (Some(f), Some(frames), Some(i)) => Some(Wav(f, TagMetadata(frames), i, ReadPcm(data)))
         case _ => None)
      case _ => None
  }
}
