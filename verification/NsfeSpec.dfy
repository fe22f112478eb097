/** NSFe files (docs/specs/nsfe.md) as a list of chunks, and what parsing one
    means: a fold of one handler a chunk, followed by the playlist remapping. */
module NsfeSpec {
  import opened Bytes
  import opened Wrappers

  const MAGIC: seq<byte> := [0x4E, 0x53, 0x46, 0x45]
  const INFO := FourCC(0x49, 0x4E, 0x46, 0x4F)
  const AUTH := FourCC(0x61, 0x75, 0x74, 0x68)
  const TLBL := FourCC(0x74, 0x6C, 0x62, 0x6C)
  const TIME := FourCC(0x74, 0x69, 0x6D, 0x65)
  const FADE := FourCC(0x66, 0x61, 0x64, 0x65)
  const PLST := FourCC(0x70, 0x6C, 0x73, 0x74)
  const NEND := FourCC(0x4E, 0x45, 0x4E, 0x44)

  /** Recognized and ignored: DATA BANK RATE NSF2 VRC7 taut psfx text mixe regn. */
  const IGNORED: set<FourCC> := {
    FourCC(0x44, 0x41, 0x54, 0x41), FourCC(0x42, 0x41, 0x4E, 0x4B), FourCC(0x52, 0x41, 0x54, 0x45),
    FourCC(0x4E, 0x53, 0x46, 0x32), FourCC(0x56, 0x52, 0x43, 0x37), FourCC(0x74, 0x61, 0x75, 0x74),
    FourCC(0x70, 0x73, 0x66, 0x78), FourCC(0x74, 0x65, 0x78, 0x74), FourCC(0x6D, 0x69, 0x78, 0x65),
    FourCC(0x72, 0x65, 0x67, 0x6E)}

  datatype TrackInfo = TrackInfo(title: seq<byte>, durationMs: int, fadeMs: int)

  const NO_INFO := TrackInfo([], 0, 0)

  datatype Header = Header(
    title: seq<byte>, artist: seq<byte>, copyright: seq<byte>,
    trackCount: nat, firstTrack: nat, tracks: seq<TrackInfo>)

  datatype Chunk = Chunk(id: FourCC, data: seq<byte>)

  datatype ParseError =
    | Truncated(id: FourCC)
    | InfoTooShort(size: nat)
    | UnknownMandatory(id: FourCC)
    | MissingInfo
    | InvalidMagic

  /** The parser's state between chunks. */
  datatype Parsing = Parsing(h: Header, hasInfo: bool, plst: seq<byte>)

  const START := Parsing(Header([], [], [], 0, 0, []), false, [])

  // ---- Null-terminated strings and packed integers -------------------------

  /** bytes.IndexByte(data, 0), with |data| for -1. */
  function IndexNul(data: seq<byte>): (i: nat)
    ensures i <= |data| && 0 !in data[..i]
    ensures i < |data| ==> data[i] == 0
  {
    if data == [] || data[0] == 0 then 0
    else
      var i := 1 + IndexNul(data[1..]);
      assert data[..i] == [data[0]] + data[1..][..i - 1];
      i
  }

  function SplitNul(data: seq<byte>, max: nat): (strs: seq<seq<byte>>)
    ensures |strs| <= max
    decreases max
  {
    if data == [] || max == 0 then []
    else if IndexNul(data) == |data| then [data]
    else [data[..IndexNul(data)]] + SplitNul(data[IndexNul(data) + 1..], max - 1)
  }

  /** How many of a chunk's int32 values are used. */
  function Int32Count(h: Header, chunk: seq<byte>): nat {
    var n := |chunk| / 4;
    if 0 < h.trackCount < n then h.trackCount else n
  }

  function Int32At(chunk: seq<byte>, i: nat): int32
    requires 4 * i + 4 <= |chunk|
  {
    ToInt32(FromLE32(chunk[4 * i..4 * i + 4]))
  }

  function Int32s(h: Header, chunk: seq<byte>): (vs: seq<int32>)
    ensures |vs| == Int32Count(h, chunk)
  {
    seq(Int32Count(h, chunk), i requires 0 <= i < Int32Count(h, chunk) => Int32At(chunk, i))
  }

  // ---- Track slots ---------------------------------------------------------

  /** Slot i, or the zero entry if there is none yet. */
  function Slot(tracks: seq<TrackInfo>, i: nat): TrackInfo {
    if i < |tracks| then tracks[i] else NO_INFO
  }

  /** ensureTracks: at least n slots, new ones zero. */
  function Grown(tracks: seq<TrackInfo>, n: nat): (r: seq<TrackInfo>)
    ensures |r| == if |tracks| < n then n else |tracks|
    ensures forall i :: 0 <= i < |r| ==> r[i] == Slot(tracks, i)
  {
    if |tracks| < n then seq(n, i requires 0 <= i => Slot(tracks, i)) else tracks
  }

  function SetTitles(tracks: seq<TrackInfo>, titles: seq<seq<byte>>): (r: seq<TrackInfo>) {
    var g := Grown(tracks, |titles|);
    seq(|g|, i requires 0 <= i < |g| => if i < |titles| then g[i].(title := titles[i]) else g[i])
  }

  /** The two fields the packed integer chunks fill. */
  datatype Field = DurationMs | FadeMs

  function WithField(t: TrackInfo, field: Field, v: int): TrackInfo {
    match field
    case DurationMs => t.(durationMs := v)
    case FadeMs => t.(fadeMs := v)
  }

  function SetInts(tracks: seq<TrackInfo>, field: Field, vs: seq<int32>): (r: seq<TrackInfo>) {
    var g := Grown(tracks, |vs|);
    seq(|g|, i requires 0 <= i < |g| => if i < |vs| then WithField(g[i], field, vs[i]) else g[i])
  }

  // ---- Handlers ------------------------------------------------------------

  function HandleAuth(h: Header, chunk: seq<byte>): Header {
    var strs := SplitNul(chunk, 4);
    h.(title := if |strs| > 0 then strs[0] else h.title,
       artist := if |strs| > 1 then strs[1] else h.artist,
       copyright := if |strs| > 2 then strs[2] else h.copyright)
  }

  predicate Upper(b: byte) {
    0x41 <= b <= 0x5A
  }

  predicate Known(id: FourCC) {
    id == INFO || id == AUTH || id == TLBL || id == TIME || id == FADE || id == PLST
  }

  /** One arm of the switch.  A chunk that is not recognized is rejected if the
      first byte of its identifier is an upper-case letter. */
  function Handle(p: Parsing, c: Chunk): Result<Parsing, ParseError> {
    var h := p.h;
    if c.id == INFO then
      if |c.data| < 9 then Err(InfoTooShort(|c.data|))
      else
        var first := if |c.data| >= 10 then c.data[9] as int + 1 else 1;
        Ok(p.(h := h.(trackCount := c.data[8], firstTrack := first), hasInfo := true))
    else if c.id == AUTH then Ok(p.(h := HandleAuth(h, c.data)))
    else if c.id == TLBL then Ok(p.(h := h.(tracks := SetTitles(h.tracks, SplitNul(c.data, h.trackCount)))))
    else if c.id == TIME then Ok(p.(h := h.(tracks := SetInts(h.tracks, DurationMs, Int32s(h, c.data)))))
    else if c.id == FADE then Ok(p.(h := h.(tracks := SetInts(h.tracks, FadeMs, Int32s(h, c.data)))))
    else if c.id == PLST then Ok(p.(plst := c.data))
    else if c.id in IGNORED || !Upper(c.id.a) then Ok(p)
    else Err(UnknownMandatory(c.id))
  }

  function Fold(p: Parsing, cs: seq<Chunk>): Result<Parsing, ParseError>
    decreases |cs|
  {
    if cs == [] then Ok(p)
    else
      match Handle(p, cs[0])
      case Err(e) => Err(e)
      case Ok(next) => Fold(next, cs[1..])
  }

  /** The playlist replaces the tracks: slot i is internal track plst[i]. */
  function Remap(tracks: seq<TrackInfo>, plst: seq<byte>): (r: seq<TrackInfo>)
    ensures |r| == |plst|
  {
    seq(|plst|, i requires 0 <= i < |plst| => Slot(tracks, plst[i]))
  }

  function Finish(p: Parsing): Result<Header, ParseError> {
    if !p.hasInfo then Err(MissingInfo)
    else if p.plst == [] then Ok(p.h)
    else Ok(p.h.(tracks := Remap(p.h.tracks, p.plst), trackCount := |p.plst|))
  }

  // ---- The chunk list of a file --------------------------------------------

  /** The chunks up to NEND or the end, and the identifier of a chunk whose data
      runs past the end. */
  datatype Walked = Walked(chunks: seq<Chunk>, cutOff: Option<FourCC>)

  function WalkChunks(b: seq<byte>): Walked
    decreases |b|
  {
    if |b| < 8 then Walked([], None)
    else
      var size, id := FromLE32(b[..4]), IdOf(b[4..8]);
      if id == NEND then Walked([], None)
      else if 8 + size > |b| then Walked([], Some(id))
      else
        var rest := WalkChunks(b[8 + size..]);
        Walked([Chunk(id, b[8..8 + size])] + rest.chunks, rest.cutOff)
  }

  /** Parsing the rest b of a file from state p. */
  function ParseRest(p: Parsing, b: seq<byte>): Result<Header, ParseError> {
    var w := WalkChunks(b);
    match Fold(p, w.chunks)
    case Err(e) => Err(e)
    case Ok(end) => if w.cutOff.Some? then Err(Truncated(w.cutOff.value)) else Finish(end)
  }

  /** parseNSFe: the first four bytes have been recognized as the magic. */
  function Parse(data: seq<byte>): Result<Header, ParseError>
    requires |data| >= 4
  {
    ParseRest(START, data[4..])
  }

  /** Parse: NSFe files are told by their magic; anything else is up to the parser
      of plain NSF files. */
  function ParseFile(data: seq<byte>, plain: seq<byte> -> Result<Header, ParseError>): Result<Header, ParseError> {
    if |data| < 4 then Err(InvalidMagic)
    else if data[..4] == MAGIC then Parse(data)
    else plain(data)
  }

  /** One turn of the parser's loop, on the rest of the file. */
  lemma RestStep(p: Parsing, b: seq<byte>)
    requires |b| >= 8
    ensures var size, id := FromLE32(b[..4]), IdOf(b[4..8]);
            ParseRest(p, b)
            == if id == NEND then Finish(p)
               else if 8 + size > |b| then Err(Truncated(id))
               else
                 match Handle(p, Chunk(id, b[8..8 + size]))
                 case Err(e) => Err(e)
                 case Ok(next) => ParseRest(next, b[8 + size..])
  {
    var size, id := FromLE32(b[..4]), IdOf(b[4..8]);
    if id != NEND && 8 + size <= |b| {
      var rest := WalkChunks(b[8 + size..]);
      assert ([Chunk(id, b[8..8 + size])] + rest.chunks)[1..] == rest.chunks;
    }
  }

  lemma RestEnd(p: Parsing, b: seq<byte>)
    requires |b| < 8
    ensures ParseRest(p, b) == Finish(p)
  {
  }
}
