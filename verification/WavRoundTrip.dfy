/** What a reader recovers from the files the muxer writes. */
module WavRoundTrip {
  import opened Bytes
  import opened Decimal
  import opened Wrappers
  import opened WavFormat
  import opened WavReader

  // ---- RIFF ----------------------------------------------------------------

  function Prepend<T>(x: seq<T>, rest: Option<seq<T>>): Option<seq<T>> {
    match rest
    case None => None
    case Some(xs) => Some(x + xs)
  }

  lemma WalkStep(b: seq<byte>, id: FourCC, p: seq<byte>, rest: seq<byte>, at: nat)
    requires |b| >= 8 + PaddedSize(|p|)
    requires IdOf(b[..4]) == id && FromLE32(b[4..8]) == |p|
    requires b[8..8 + |p|] == p && b[8 + PaddedSize(|p|)..] == rest
    requires |p| % 2 == 1 ==> b[8 + |p|] == 0
    ensures Chunks(b, at) == Prepend([Chunk(id, at, p)], Chunks(rest, at + 8 + PaddedSize(|p|)))
  {
  }

  /** The walk takes one written chunk off the front of anything. */
  lemma WalkOverChunk(id: FourCC, p: seq<byte>, rest: seq<byte>, at: nat)
    requires |p| < TWO_32
    ensures Chunks(RiffChunk(id, p) + rest, at)
            == Prepend([Chunk(id, at, p)], Chunks(rest, at + 8 + PaddedSize(|p|)))
  {
    LE32RoundTrip(|p|);
    WalkPieces(IdBytes(id), LE32(|p|), p, Zeros(|p| % 2), rest, id, at);
  }

  lemma WalkPieces(idBytes: seq<byte>, size: seq<byte>, p: seq<byte>, pad: seq<byte>, rest: seq<byte>,
                   id: FourCC, at: nat)
    requires |idBytes| == |size| == 4 && IdOf(idBytes) == id && FromLE32(size) == |p|
    requires pad == Zeros(|p| % 2)
    ensures Chunks(idBytes + size + p + pad + rest, at)
            == Prepend([Chunk(id, at, p)], Chunks(rest, at + 8 + PaddedSize(|p|)))
  {
    Slices(idBytes, size, p, pad, rest);
    WalkStep(idBytes + size + p + pad + rest, id, p, rest, at);
  }

  lemma Slices(id: seq<byte>, size: seq<byte>, p: seq<byte>, pad: seq<byte>, rest: seq<byte>)
    requires |id| == |size| == 4
    ensures var b := id + size + p + pad + rest;
            && b[..4] == id && b[4..8] == size && b[8..8 + |p|] == p && b[8 + |p| + |pad|..] == rest
            && (|pad| > 0 ==> b[8 + |p|] == pad[0])
  {
  }

  datatype Part = Part(id: FourCC, payload: seq<byte>)

  function Written(parts: seq<Part>): seq<byte> {
    if parts == [] then [] else RiffChunk(parts[0].id, parts[0].payload) + Written(parts[1..])
  }

  /** The chunks a reader that starts at offset at meets in Written(parts). */
  function Located(parts: seq<Part>, at: nat): seq<Chunk> {
    if parts == [] then []
    else [Chunk(parts[0].id, at, parts[0].payload)] +
         Located(parts[1..], at + 8 + PaddedSize(|parts[0].payload|))
  }

  /** A walk over written chunks finds each of them and ends exactly at the end. */
  lemma {:induction false} WalkWritten(parts: seq<Part>, at: nat)
    requires forall i :: 0 <= i < |parts| ==> |parts[i].payload| < TWO_32
    ensures Chunks(Written(parts), at) == Some(Located(parts, at))
  {
    if parts != [] {
      var next := at + 8 + PaddedSize(|parts[0].payload|);
      WalkWritten(parts[1..], next);
      WalkOn(parts, Written(parts[1..]), at, Located(parts[1..], next));
    }
  }

  lemma WalkOn(parts: seq<Part>, rest: seq<byte>, at: nat, cs: seq<Chunk>)
    requires parts != [] && |parts[0].payload| < TWO_32 && rest == Written(parts[1..])
    requires var next := at + 8 + PaddedSize(|parts[0].payload|);
             cs == Located(parts[1..], next) && Chunks(rest, next) == Some(cs)
    ensures Chunks(Written(parts), at) == Some(Located(parts, at))
  {
    WalkOverPart(parts[0], rest, at, cs);
  }

  lemma WalkOverPart(p: Part, rest: seq<byte>, at: nat, cs: seq<Chunk>)
    requires |p.payload| < TWO_32 && Chunks(rest, at + 8 + PaddedSize(|p.payload|)) == Some(cs)
    ensures Chunks(RiffChunk(p.id, p.payload) + rest, at) == Some([Chunk(p.id, at, p.payload)] + cs)
  {
    WalkOverChunk(p.id, p.payload, rest, at);
  }

  lemma {:induction false} LocatedAligned(parts: seq<Part>, at: nat)
    requires at % 2 == 0
    ensures |Located(parts, at)| == |parts|
    ensures forall i :: 0 <= i < |parts| ==>
              var c := Located(parts, at)[i];
              c.offset % 2 == 0 && c.id == parts[i].id && c.payload == parts[i].payload
  {
    if parts != [] {
      LocatedAligned(parts[1..], at + 8 + PaddedSize(|parts[0].payload|));
    }
  }

  lemma {:induction false} WrittenAppend(a: seq<Part>, b: seq<Part>)
    ensures Written(a + b) == Written(a) + Written(b)
  {
    if a == [] {
      assert a + b == b;
    } else {
      assert (a + b)[1..] == a[1..] + b;
      WrittenAppend(a[1..], b);
      assert RiffChunk(a[0].id, a[0].payload) + (Written(a[1..]) + Written(b))
          == RiffChunk(a[0].id, a[0].payload) + Written(a[1..]) + Written(b);
    }
  }

  lemma WrittenOne(p: Part)
    ensures Written([p]) == RiffChunk(p.id, p.payload)
  {
    assert [p][1..] == [];
  }

  function FindPart(parts: seq<Part>, id: FourCC): Option<seq<byte>> {
    if parts == [] then None
    else if parts[0].id == id then Some(parts[0].payload)
    else FindPart(parts[1..], id)
  }

  lemma {:induction false} FindLocated(parts: seq<Part>, at: nat, id: FourCC)
    ensures Find(Located(parts, at), id) == FindPart(parts, id)
  {
    if parts != [] {
      var next := at + 8 + PaddedSize(|parts[0].payload|);
      assert Located(parts, at)[1..] == Located(parts[1..], next);
      FindLocated(parts[1..], next, id);
    }
  }

  lemma {:induction false} FindPartAppend(a: seq<Part>, b: seq<Part>, id: FourCC)
    ensures FindPart(a + b, id) == if FindPart(a, id).Some? then FindPart(a, id) else FindPart(b, id)
  {
    if a == [] {
      assert a + b == b;
    } else {
      assert (a + b)[1..] == a[1..] + b;
      FindPartAppend(a[1..], b, id);
    }
  }

  // ---- ID3v2.4 -------------------------------------------------------------

  /** A syncsafe field holds exactly the sizes below 2^28. */
  lemma SyncsafeExact(n: int)
    ensures FromSyncsafe(Syncsafe(n)) == n % TWO_28
    ensures FromSyncsafe(Syncsafe(n)) == n <==> 0 <= n < TWO_28
  {
    assert n / 0x80 / 0x80 == n / 0x4000;
    assert n / 0x4000 / 0x80 == n / 0x20_0000;
    assert n / 0x20_0000 / 0x80 == n / TWO_28;
  }

  function OptFrame(id: FourCC, text: seq<byte>): seq<Frame> {
    if text == [] then [] else [Frame(id, text)]
  }

  lemma FrameStep(b: seq<byte>, id: FourCC, text: seq<byte>, rest: seq<byte>)
    requires |b| >= 11 + |text|
    requires IdOf(b[..4]) == id && FromSyncsafe(b[4..8]) == 1 + |text|
    requires b[8] == 0 && b[9] == 0 && b[10] == 3
    requires b[11..11 + |text|] == text && b[11 + |text|..] == rest
    ensures ReadFrames(b) == Prepend([Frame(id, text)], ReadFrames(rest))
  {
  }

  lemma FrameSlices(id: seq<byte>, size: seq<byte>, text: seq<byte>, rest: seq<byte>)
    requires |id| == |size| == 4
    ensures var b := id + size + [0, 0] + ([3] + text) + rest;
            b[..4] == id && b[4..8] == size && b[8] == 0 && b[9] == 0 && b[10] == 3 &&
            b[11..11 + |text|] == text && b[11 + |text|..] == rest
  {
  }

  /** The frame walk takes one written frame, present or not, off the front. */
  lemma ReadOverFrame(id: FourCC, text: seq<byte>, rest: seq<byte>)
    requires |TextFrame(id, text)| < TWO_28
    ensures ReadFrames(TextFrame(id, text) + rest) == Prepend(OptFrame(id, text), ReadFrames(rest))
  {
    var b := TextFrame(id, text) + rest;
    if text == [] {
      assert b == rest;
      assert forall xs: seq<Frame> :: [] + xs == xs;
    } else {
      SyncsafeExact(1 + |text|);
      FrameSlices(IdBytes(id), Syncsafe(1 + |text|), text, rest);
      FrameStep(b, id, text, rest);
    }
  }

  function FrameList(m: Metadata): seq<Frame> {
    OptFrame(TIT2, m.title) + (OptFrame(TPE1, m.artist) + (OptFrame(TALB, m.album) +
    (OptFrame(TPE2, m.albumArtist) + (OptFrame(TRCK, TrackText(m.track)) + []))))
  }

  lemma RegroupFrames(a: seq<byte>, b: seq<byte>, c: seq<byte>, d: seq<byte>, e: seq<byte>)
    ensures a + b + c + d + e == a + (b + (c + (d + (e + []))))
  {
  }

  lemma ReadAllFrames(m: Metadata)
    requires |Frames(m)| < TWO_28
    ensures ReadFrames(Frames(m)) == Some(FrameList(m))
  {
    var a, b, c := TextFrame(TIT2, m.title), TextFrame(TPE1, m.artist), TextFrame(TALB, m.album);
    var d, e := TextFrame(TPE2, m.albumArtist), TextFrame(TRCK, TrackText(m.track));
    RegroupFrames(a, b, c, d, e);
    ReadOverFrame(TRCK, TrackText(m.track), []);
    ReadOverFrame(TPE2, m.albumArtist, e + []);
    ReadOverFrame(TALB, m.album, d + (e + []));
    ReadOverFrame(TPE1, m.artist, c + (d + (e + [])));
    ReadOverFrame(TIT2, m.title, b + (c + (d + (e + []))));
  }

  lemma TextOfFirst(id: FourCC, text: seq<byte>, rest: seq<Frame>, q: FourCC)
    ensures FrameText(OptFrame(id, text) + rest, q)
            == if q == id && text != [] then text else FrameText(rest, q)
  {
    if text == [] {
      assert OptFrame(id, text) + rest == rest;
    } else {
      assert (OptFrame(id, text) + rest)[1..] == rest;
    }
  }

  /** Text q of the list: the one field written under q. */
  lemma TextOf(m: Metadata, q: FourCC)
    ensures FrameText(FrameList(m), q)
            == if q == TIT2 && m.title != [] then m.title
               else if q == TPE1 && m.artist != [] then m.artist
               else if q == TALB && m.album != [] then m.album
               else if q == TPE2 && m.albumArtist != [] then m.albumArtist
               else if q == TRCK then TrackText(m.track)
               else []
  {
    var e := OptFrame(TRCK, TrackText(m.track)) + [];
    var d := OptFrame(TPE2, m.albumArtist) + e;
    var c := OptFrame(TALB, m.album) + d;
    var b := OptFrame(TPE1, m.artist) + c;
    TextOfFirst(TIT2, m.title, b, q);
    TextOfFirst(TPE1, m.artist, c, q);
    TextOfFirst(TALB, m.album, d, q);
    TextOfFirst(TPE2, m.albumArtist, e, q);
    TextOfFirst(TRCK, TrackText(m.track), [], q);
  }

  /** What survives in the tag: a track number that is not positive is not
      written, so it reads as 0. */
  function Tagged(m: Metadata): Metadata {
    m.(track := if m.track > 0 then m.track else 0)
  }

  lemma MetadataOfFrames(m: Metadata)
    ensures TagMetadata(FrameList(m)) == Tagged(m)
  {
    TextOf(m, TIT2);
    TextOf(m, TPE1);
    TextOf(m, TALB);
    TextOf(m, TPE2);
    TextOf(m, TRCK);
    if m.track > 0 {
      BytesRoundTrip(m.track);
    }
  }

  /** The tag reads back exactly, and is readable exactly when its frames fit
      the 28-bit size field. */
  lemma Id3RoundTrip(m: Metadata)
    ensures ReadId3(Id3Tag(m)).Some? <==> |Frames(m)| < TWO_28
    ensures |Frames(m)| < TWO_28 ==>
              ReadId3(Id3Tag(m)) == Some(FrameList(m)) && TagMetadata(FrameList(m)) == Tagged(m)
  {
    var tag := Id3Tag(m);
    SyncsafeExact(|Frames(m)|);
    assert tag[..6] == [0x49, 0x44, 0x33, 4, 0, 0];
    assert tag[6..10] == Syncsafe(|Frames(m)|);
    assert tag[10..] == Frames(m);
    if |Frames(m)| < TWO_28 {
      ReadAllFrames(m);
      MetadataOfFrames(m);
    }
  }

  // ---- LIST INFO -----------------------------------------------------------

  function OptPart(id: FourCC, text: seq<byte>): seq<Part> {
    if text == [] then [] else [Part(id, text + [0])]
  }

  function InfoParts(m: Metadata): seq<Part> {
    OptPart(INAM, m.title) + OptPart(IART, m.artist) + OptPart(IPRD, m.album)
  }

  lemma OptPartWritten(id: FourCC, text: seq<byte>)
    ensures Written(OptPart(id, text)) == InfoSubchunk(id, text)
    ensures FindPart(OptPart(id, text), id) == if text == [] then None else Some(text + [0])
    ensures forall q: FourCC :: q != id ==> FindPart(OptPart(id, text), q) == None
  {
    if text != [] {
      WrittenOne(Part(id, text + [0]));
      assert OptPart(id, text)[1..] == [];
    }
  }

  lemma InfoPartsWritten(m: Metadata)
    ensures Written(InfoParts(m)) == InfoSubchunks(m)
  {
    var a, b, c := OptPart(INAM, m.title), OptPart(IART, m.artist), OptPart(IPRD, m.album);
    WrittenAppend(a + b, c);
    WrittenAppend(a, b);
    OptPartWritten(INAM, m.title);
    OptPartWritten(IART, m.artist);
    OptPartWritten(IPRD, m.album);
  }

  lemma FindInfo(m: Metadata, q: FourCC)
    ensures FindPart(InfoParts(m), q)
            == if q == INAM && m.title != [] then Some(m.title + [0])
               else if q == IART && m.artist != [] then Some(m.artist + [0])
               else if q == IPRD && m.album != [] then Some(m.album + [0])
               else None
  {
    var a, b, c := OptPart(INAM, m.title), OptPart(IART, m.artist), OptPart(IPRD, m.album);
    FindPartAppend(a + b, c, q);
    FindPartAppend(a, b, q);
    OptPartWritten(INAM, m.title);
    OptPartWritten(IART, m.artist);
    OptPartWritten(IPRD, m.album);
  }

  lemma InfoTextFound(parts: seq<Part>, q: FourCC, text: seq<byte>)
    requires FindPart(parts, q) == if text == [] then None else Some(text + [0])
    ensures InfoText(Located(parts, 4), q) == text
  {
    FindLocated(parts, 4, q);
    assert (text + [0])[..|text|] == text;
  }

  /** LIST INFO gives back title, artist and album. */
  lemma InfoRoundTrip(m: Metadata)
    requires |InfoSubchunks(m)| < TWO_32
    ensures ReadInfo(IdBytes(INFO) + InfoSubchunks(m)) == Some(Info(m.title, m.artist, m.album))
  {
    var p := IdBytes(INFO) + InfoSubchunks(m);
    assert p[..4] == IdBytes(INFO) && p[4..] == InfoSubchunks(m);
    InfoPartsWritten(m);
    WalkWritten(InfoParts(m), 4);
    InfoTexts(m);
  }

  lemma InfoTexts(m: Metadata)
    ensures var cs := Located(InfoParts(m), 4);
            InfoText(cs, INAM) == m.title && InfoText(cs, IART) == m.artist && InfoText(cs, IPRD) == m.album
  {
    FindInfo(m, INAM);
    FindInfo(m, IART);
    FindInfo(m, IPRD);
    InfoTextFound(InfoParts(m), INAM, m.title);
    InfoTextFound(InfoParts(m), IART, m.artist);
    InfoTextFound(InfoParts(m), IPRD, m.album);
  }

  // ---- fmt and data --------------------------------------------------------

  lemma FmtRoundTrip(opts: Options)
    ensures ReadFmt(FmtPayload(opts))
            == Some(Format(1, opts.channels % TWO_16, opts.sampleRate % TWO_32,
                           opts.sampleRate * opts.channels * 2 % TWO_32,
                           opts.channels * 2 % TWO_16, 16))
  {
    var byteRate := opts.sampleRate * opts.channels * 2;
    LE16RoundTrip(1);
    LE16RoundTrip(opts.channels);
    LE32RoundTrip(opts.sampleRate);
    LE32RoundTrip(byteRate);
    LE16RoundTrip(opts.channels * 2);
    LE16RoundTrip(16);
    FmtSlices(LE16(1), LE16(opts.channels), LE32(opts.sampleRate), LE32(byteRate),
              LE16(opts.channels * 2), LE16(16));
  }

  predicate FormatFits(opts: Options) {
    && 0 <= opts.sampleRate < TWO_32
    && 0 <= opts.channels < TWO_16 / 2
    && 0 <= opts.sampleRate * opts.channels * 2 < TWO_32
  }

  function FormatOf(opts: Options): Format
    requires FormatFits(opts)
  {
    Format(1, opts.channels, opts.sampleRate, opts.sampleRate * opts.channels * 2, opts.channels * 2, 16)
  }

  lemma FmtExact(opts: Options)
    requires FormatFits(opts)
    ensures ReadFmt(FmtPayload(opts)) == Some(FormatOf(opts))
  {
    FmtRoundTrip(opts);
    Unwrapped(opts.channels, TWO_16);
    Unwrapped(opts.channels * 2, TWO_16);
    Unwrapped(opts.sampleRate, TWO_32);
    Unwrapped(opts.sampleRate * opts.channels * 2, TWO_32);
  }

  lemma Unwrapped(n: int, m: nat)
    requires 0 <= n < m
    ensures n % m == n
  {
  }

  lemma FmtSlices(a: seq<byte>, b: seq<byte>, c: seq<byte>, d: seq<byte>, e: seq<byte>, f: seq<byte>)
    requires |a| == |b| == |e| == |f| == 2 && |c| == |d| == 4
    ensures var p := a + b + c + d + e + f;
            p[..2] == a && p[2..4] == b && p[4..8] == c && p[8..12] == d &&
            p[12..14] == e && p[14..16] == f
  {
  }

  lemma {:induction false} PcmAt(samples: seq<int16>, i: nat)
    requires i < |samples|
    ensures PcmBytes(samples)[2 * i..2 * i + 2] == LE16(samples[i])
  {
    var n := |samples| - 1;
    if i < n {
      PcmAt(samples[..n], i);
    }
  }

  lemma PcmRoundTrip(samples: seq<int16>)
    ensures ReadPcm(PcmBytes(samples)) == samples
  {
    forall i | 0 <= i < |samples|
      ensures ReadPcm(PcmBytes(samples))[i] == samples[i]
    {
      PcmAt(samples, i);
      Int16RoundTrip(samples[i]);
    }
  }

  // ---- The whole file ------------------------------------------------------

  /** The chunks of a written file, in order. */
  function FileParts(samples: seq<int16>, opts: Options): seq<Part> {
    [Part(FMT, FmtPayload(opts)), Part(ID3, Id3Tag(opts.metadata))] + ListParts(opts.metadata) +
    [Part(DATA, PcmBytes(samples))]
  }

  function ListParts(m: Metadata): seq<Part> {
    if HasInfo(m) then [Part(LIST, IdBytes(INFO) + InfoSubchunks(m))] else []
  }

  lemma WrittenInOrder(fmt: Part, id3: Part, list: seq<Part>, data: Part)
    ensures Written([fmt, id3] + list + [data])
            == RiffChunk(fmt.id, fmt.payload) + RiffChunk(id3.id, id3.payload) + Written(list) +
               RiffChunk(data.id, data.payload)
  {
    WrittenAppend([fmt, id3] + list, [data]);
    WrittenAppend([fmt, id3], list);
    assert [fmt, id3] == [fmt] + [id3];
    WrittenAppend([fmt], [id3]);
    WrittenOne(fmt);
    WrittenOne(id3);
    WrittenOne(data);
  }

  lemma ListWritten(m: Metadata)
    ensures Written(ListParts(m)) == ListInfo(m)
  {
    if HasInfo(m) {
      WrittenOne(ListParts(m)[0]);
    }
  }

  lemma WrittenWithData(fmt: Part, id3: Part, list: seq<Part>, pcm: seq<byte>, samples: nat)
    requires |pcm| == 2 * samples
    ensures Written([fmt, id3] + list + [Part(DATA, pcm)])
            == RiffChunk(fmt.id, fmt.payload) + RiffChunk(id3.id, id3.payload) + Written(list) +
               (IdBytes(DATA) + LE32(2 * samples) + pcm)
  {
    WrittenInOrder(fmt, id3, list, Part(DATA, pcm));
    DataChunk(pcm, samples);
  }

  lemma DataChunk(pcm: seq<byte>, samples: nat)
    requires |pcm| == 2 * samples
    ensures RiffChunk(DATA, pcm) == IdBytes(DATA) + LE32(2 * samples) + pcm
  {
    UnpaddedChunk(DATA, pcm);
  }

  lemma WrittenFile(samples: seq<int16>, opts: Options)
    ensures Written(FileParts(samples, opts))
            == RiffChunk(FMT, FmtPayload(opts)) + RiffChunk(ID3, Id3Tag(opts.metadata)) +
               ListInfo(opts.metadata) + (IdBytes(DATA) + LE32(2 * |samples|) + PcmBytes(samples))
  {
    WrittenWithData(Part(FMT, FmtPayload(opts)), Part(ID3, Id3Tag(opts.metadata)),
                    ListParts(opts.metadata), PcmBytes(samples), |samples|);
    ListWritten(opts.metadata);
  }

  lemma FilePartsWritten(samples: seq<int16>, opts: Options)
    ensures IdBytes(WAVE) + Written(FileParts(samples, opts)) == HeaderBody(2 * |samples|, opts) + PcmBytes(samples)
  {
    WrittenFile(samples, opts);
    RegroupFile(IdBytes(WAVE), RiffChunk(FMT, FmtPayload(opts)), RiffChunk(ID3, Id3Tag(opts.metadata)),
                ListInfo(opts.metadata), IdBytes(DATA), LE32(2 * |samples|), PcmBytes(samples));
  }

  lemma UnpaddedChunk(id: FourCC, p: seq<byte>)
    requires |p| % 2 == 0
    ensures RiffChunk(id, p) == IdBytes(id) + LE32(|p|) + p
  {
    var b := IdBytes(id) + LE32(|p|) + p;
    assert b + Zeros(0) == b;
  }

  lemma RegroupFile(w: seq<byte>, a: seq<byte>, b: seq<byte>, l: seq<byte>, id: seq<byte>, size: seq<byte>,
                    pcm: seq<byte>)
    ensures w + (a + b + l + (id + size + pcm)) == (w + a + b + l + id + size) + pcm
  {
  }

  lemma FileSlices(riff: seq<byte>, size: seq<byte>, wave: seq<byte>, chunks: seq<byte>, body: seq<byte>,
                   pcm: seq<byte>)
    requires |riff| == |size| == |wave| == 4
    requires wave + chunks == body + pcm
    ensures var file := riff + size + body + pcm;
            |file| >= 12 && file[..4] == riff && file[4..8] == size && file[8..12] == wave &&
            file[12..] == chunks
  {
    assert riff + size + body + pcm == riff + size + (wave + chunks);
  }

  lemma RiffSize(file: seq<byte>)
    requires |file| >= 12 && IdOf(file[..4]) == RIFF && IdOf(file[8..12]) == WAVE
    requires FromLE32(file[4..8]) == (|file| - 8) % TWO_32
    ensures ReadRiff(file) == if |file| - 8 < TWO_32 then Chunks(file[12..], 12) else None
  {
  }

  lemma PartsWalk(parts: seq<Part>)
    requires |Written(parts)| < TWO_32
    ensures Chunks(Written(parts), 12) == Some(Located(parts, 12))
  {
    PartsFit(parts);
    WalkWritten(parts, 12);
  }

  /** Any RIFF size followed by WAVE and written parts. */
  lemma RiffOfParts(file: seq<byte>, parts: seq<Part>)
    requires |file| >= 12 && IdOf(file[..4]) == RIFF && IdOf(file[8..12]) == WAVE
    requires file[4..8] == LE32(|file| - 8) && file[12..] == Written(parts)
    ensures ReadRiff(file) == if |file| - 8 < TWO_32 then Some(Located(parts, 12)) else None
  {
    LE32RoundTrip(|file| - 8);
    RiffSize(file);
    if |file| - 8 < TWO_32 {
      PartsWalk(parts);
    }
  }

  /** A walk of a written file visits exactly the chunks of FileParts and ends
      exactly at the end of the file.  It is possible exactly when the 32-bit RIFF
      size field can hold the size of the file. */
  lemma RiffRoundTrip(samples: seq<int16>, opts: Options)
    ensures ReadRiff(WavFile(samples, opts)).Some? <==> |WavFile(samples, opts)| - 8 < TWO_32
    ensures |WavFile(samples, opts)| - 8 < TWO_32 ==>
              ReadRiff(WavFile(samples, opts)) == Some(Located(FileParts(samples, opts), 12))
  {
    var parts := FileParts(samples, opts);
    var body, pcm := HeaderBody(2 * |samples|, opts), PcmBytes(samples);
    FilePartsWritten(samples, opts);
    RiffOfPieces(parts, WavHeader(2 * |samples|, opts), body, pcm, |body| + 2 * |samples|);
  }

  lemma RiffOfPieces(parts: seq<Part>, header: seq<byte>, body: seq<byte>, pcm: seq<byte>, size: nat)
    requires IdBytes(WAVE) + Written(parts) == body + pcm && size == |body| + |pcm|
    requires header == IdBytes(RIFF) + LE32(size) + body
    ensures var file := header + pcm;
            ReadRiff(file) == if |file| - 8 < TWO_32 then Some(Located(parts, 12)) else None
  {
    FileSlices(IdBytes(RIFF), LE32(size), IdBytes(WAVE), Written(parts), body, pcm);
    RiffOfParts(IdBytes(RIFF) + LE32(size) + body + pcm, parts);
  }

  /** Which chunks those are, and that each starts at an even offset. */
  lemma FileChunks(samples: seq<int16>, opts: Options)
    ensures var cs := Located(FileParts(samples, opts), 12);
            && (HasInfo(opts.metadata) <==> opts.metadata.title != [] || opts.metadata.artist != [] ||
                                            opts.metadata.album != [])
            && |cs| == (if HasInfo(opts.metadata) then 4 else 3)
            && cs[0].id == FMT_ID && cs[1].id == ID3_ID && cs[|cs| - 1].id == DATA_ID
            && (HasInfo(opts.metadata) ==> cs[2].id == LIST_ID)
            && forall i :: 0 <= i < |cs| ==> cs[i].offset % 2 == 0
  {
    LocatedAligned(FileParts(samples, opts), 12);
  }

  lemma {:induction false} PartsFit(parts: seq<Part>)
    ensures forall i :: 0 <= i < |parts| ==> |parts[i].payload| <= |Written(parts)|
  {
    if parts != [] {
      PartsFit(parts[1..]);
    }
  }

  lemma FindOne(p: Part, q: FourCC)
    ensures FindPart([p], q) == if p.id == q then Some(p.payload) else None
  {
    assert [p][1..] == [];
  }

  lemma FindInFile(samples: seq<int16>, opts: Options, q: FourCC)
    ensures FindPart(FileParts(samples, opts), q)
            == if q == FMT then Some(FmtPayload(opts))
               else if q == ID3 then Some(Id3Tag(opts.metadata))
               else if q == LIST && HasInfo(opts.metadata) then Some(IdBytes(INFO) + InfoSubchunks(opts.metadata))
               else if q == DATA then Some(PcmBytes(samples))
               else None
  {
    var fmt, id3 := Part(FMT, FmtPayload(opts)), Part(ID3, Id3Tag(opts.metadata));
    var list, data := ListParts(opts.metadata), Part(DATA, PcmBytes(samples));
    FindPartAppend([fmt, id3] + list, [data], q);
    FindPartAppend([fmt, id3], list, q);
    assert [fmt, id3] == [fmt] + [id3];
    FindPartAppend([fmt], [id3], q);
    FindOne(fmt, q);
    FindOne(id3, q);
    FindOne(data, q);
    if HasInfo(opts.metadata) {
      FindOne(list[0], q);
    }
  }

  lemma ReadWavFrom(file: seq<byte>, cs: seq<Chunk>, fmt: Format, frames: seq<Frame>, info: Info,
                    samples: seq<int16>, fmtP: seq<byte>, tag: seq<byte>, pcm: seq<byte>)
    requires ReadRiff(file) == Some(cs)
    requires Find(cs, FMT) == Some(fmtP) && ReadFmt(fmtP) == Some(fmt)
    requires Find(cs, ID3) == Some(tag) && ReadId3(tag) == Some(frames)
    requires Find(cs, DATA) == Some(pcm) && ReadPcm(pcm) == samples
    requires match Find(cs, LIST)
             case None => info == Info([], [], [])
             case Some(p) => ReadInfo(p) == Some(info)
    ensures ReadWav(file) == Some(Wav(fmt, TagMetadata(frames), info, samples))
  {
  }

  lemma FindInReadFile(samples: seq<int16>, opts: Options, q: FourCC)
    ensures Find(Located(FileParts(samples, opts), 12), q)
            == if q == FMT then Some(FmtPayload(opts))
               else if q == ID3 then Some(Id3Tag(opts.metadata))
               else if q == LIST && HasInfo(opts.metadata) then Some(IdBytes(INFO) + InfoSubchunks(opts.metadata))
               else if q == DATA then Some(PcmBytes(samples))
               else None
  {
    FindLocated(FileParts(samples, opts), 12, q);
    FindInFile(samples, opts, q);
  }

  lemma ListReads(samples: seq<int16>, opts: Options)
    requires |WavFile(samples, opts)| - 8 < TWO_32
    ensures HasInfo(opts.metadata) ==>
              ReadInfo(IdBytes(INFO) + InfoSubchunks(opts.metadata))
              == Some(Info(opts.metadata.title, opts.metadata.artist, opts.metadata.album))
  {
    if HasInfo(opts.metadata) {
      InfoFits(samples, opts);
      InfoRoundTrip(opts.metadata);
    }
  }

  /** Decoding undoes Encode: the format, all five tag fields, the INFO texts and
      every sample. */
  lemma WavRoundTrips(samples: seq<int16>, opts: Options)
    requires |WavFile(samples, opts)| - 8 < TWO_32
    requires |Frames(opts.metadata)| < TWO_28
    requires FormatFits(opts)
    ensures ReadWav(WavFile(samples, opts))
            == Some(Wav(FormatOf(opts), Tagged(opts.metadata),
                        Info(opts.metadata.title, opts.metadata.artist, opts.metadata.album), samples))
  {
    var m := opts.metadata;
    RiffRoundTrip(samples, opts);
    FindInReadFile(samples, opts, FMT);
    FindInReadFile(samples, opts, ID3);
    FindInReadFile(samples, opts, LIST);
    FindInReadFile(samples, opts, DATA);
    FmtExact(opts);
    Id3RoundTrip(m);
    PcmRoundTrip(samples);
    ListReads(samples, opts);
    ReadWavFrom(WavFile(samples, opts), Located(FileParts(samples, opts), 12), FormatOf(opts), FrameList(m),
                Info(m.title, m.artist, m.album), samples, FmtPayload(opts), Id3Tag(m), PcmBytes(samples));
  }

  lemma InfoFits(samples: seq<int16>, opts: Options)
    requires HasInfo(opts.metadata)
    ensures |InfoSubchunks(opts.metadata)| < |WavFile(samples, opts)| - 8
  {
    HeaderLength(2 * |samples|, opts);
  }
}
