/** NSFe files as printed and read back: the parser undoes a printer of chunk
    lists, ignores what the format tells it to ignore, and recovers printed
    metadata in whatever order its chunks come. */
module NsfeRoundTrip {
  import opened Bytes
  import opened Wrappers
  import opened NsfeSpec
  import opened Sequences

  // The identifiers, as the format spells them.
  const NSFE: seq<byte> := ['N' as int, 'S' as int, 'F' as int, 'E' as int]
  const INFO_ID := FourCC('I' as int, 'N' as int, 'F' as int, 'O' as int)
  const AUTH_ID := FourCC('a' as int, 'u' as int, 't' as int, 'h' as int)
  const TLBL_ID := FourCC('t' as int, 'l' as int, 'b' as int, 'l' as int)
  const TIME_ID := FourCC('t' as int, 'i' as int, 'm' as int, 'e' as int)
  const FADE_ID := FourCC('f' as int, 'a' as int, 'd' as int, 'e' as int)
  const PLST_ID := FourCC('p' as int, 'l' as int, 's' as int, 't' as int)
  const NEND_ID := FourCC('N' as int, 'E' as int, 'N' as int, 'D' as int)
  const HANDLED_IDS := [INFO_ID, AUTH_ID, TLBL_ID, TIME_ID, FADE_ID, PLST_ID]
  const SKIPPED_IDS := [
    FourCC('D' as int, 'A' as int, 'T' as int, 'A' as int),
    FourCC('B' as int, 'A' as int, 'N' as int, 'K' as int),
    FourCC('R' as int, 'A' as int, 'T' as int, 'E' as int),
    FourCC('N' as int, 'S' as int, 'F' as int, '2' as int),
    FourCC('V' as int, 'R' as int, 'C' as int, '7' as int),
    FourCC('t' as int, 'a' as int, 'u' as int, 't' as int),
    FourCC('p' as int, 's' as int, 'f' as int, 'x' as int),
    FourCC('t' as int, 'e' as int, 'x' as int, 't' as int),
    FourCC('m' as int, 'i' as int, 'x' as int, 'e' as int),
    FourCC('r' as int, 'e' as int, 'g' as int, 'n' as int)
  ]

  /** An unknown chunk with such an identifier must not be skipped. */
  predicate Mandatory(id: FourCC) {
    'A' as int <= id.a <= 'Z' as int
  }

  /** The parser's own tables say the same. */
  lemma SameTables(id: FourCC)
    ensures Known(id) <==> id in HANDLED_IDS
    ensures id in IGNORED <==> id in SKIPPED_IDS
    ensures Upper(id.a) <==> Mandatory(id)
    ensures NEND == NEND_ID && INFO == INFO_ID && AUTH == AUTH_ID && TLBL == TLBL_ID
    ensures TIME == TIME_ID && FADE == FADE_ID && PLST == PLST_ID
  {
  }

  // ---- Printing chunk lists ------------------------------------------------

  function Frame(c: Chunk): (b: seq<byte>)
    ensures |b| == 8 + |c.data|
  {
    LE32(|c.data|) + IdBytes(c.id) + c.data
  }

  function Print(cs: seq<Chunk>): seq<byte> {
    if cs == [] then [] else Frame(cs[0]) + Print(cs[1..])
  }

  /** A chunk that has a printed form of its own. */
  predicate Printable(c: Chunk) {
    c.id != NEND_ID && |c.data| < TWO_32
  }

  predicate AllPrintable(cs: seq<Chunk>) {
    forall i :: 0 <= i < |cs| ==> Printable(cs[i])
  }

  lemma FrameSlices(size: seq<byte>, id: seq<byte>, data: seq<byte>, rest: seq<byte>)
    requires |size| == |id| == 4
    ensures var b := size + id + data + rest;
            b[..4] == size && b[4..8] == id && b[8..8 + |data|] == data && b[8 + |data|..] == rest
  {
  }

  lemma WalkStep(b: seq<byte>, c: Chunk, rest: seq<byte>)
    requires |b| >= 8 + |c.data| && c.id != NEND_ID
    requires FromLE32(b[..4]) == |c.data| && IdOf(b[4..8]) == c.id
    requires b[8..8 + |c.data|] == c.data && b[8 + |c.data|..] == rest
    ensures WalkChunks(b) == Walked([c] + WalkChunks(rest).chunks, WalkChunks(rest).cutOff)
  {
  }

  lemma WalkFrame(c: Chunk, rest: seq<byte>)
    requires Printable(c)
    ensures WalkChunks(Frame(c) + rest) == Walked([c] + WalkChunks(rest).chunks, WalkChunks(rest).cutOff)
  {
    LE32RoundTrip(|c.data|);
    WalkPieces(LE32(|c.data|), IdBytes(c.id), c, rest);
  }

  lemma WalkPieces(size: seq<byte>, id: seq<byte>, c: Chunk, rest: seq<byte>)
    requires |size| == |id| == 4 && FromLE32(size) == |c.data| && IdOf(id) == c.id != NEND_ID
    ensures WalkChunks(size + id + c.data + rest) == Walked([c] + WalkChunks(rest).chunks, WalkChunks(rest).cutOff)
  {
    FrameSlices(size, id, c.data, rest);
    WalkStep(size + id + c.data + rest, c, rest);
  }

  lemma {:induction false} WalkPrinted(cs: seq<Chunk>, rest: seq<byte>)
    requires AllPrintable(cs)
    ensures WalkChunks(Print(cs) + rest) == Walked(cs + WalkChunks(rest).chunks, WalkChunks(rest).cutOff)
  {
    var after := WalkChunks(rest).chunks;
    if cs == [] {
      assert Print(cs) + rest == rest && cs + after == after;
    } else {
      WalkPrinted(cs[1..], rest);
      WalkFrame(cs[0], Print(cs[1..]) + rest);
      Regroup(Frame(cs[0]), Print(cs[1..]), rest);
      Regroup([cs[0]], cs[1..], after);
      HeadTail(cs);
    }
  }

  lemma {:induction false} FoldAppend(p: Parsing, a: seq<Chunk>, b: seq<Chunk>)
    ensures Fold(p, a + b)
            == match Fold(p, a)
               case Err(e) => Err(e)
               case Ok(next) => Fold(next, b)
    decreases |a|
  {
    if a == [] {
      assert a + b == b;
    } else {
      assert (a + b)[0] == a[0] && (a + b)[1..] == a[1..] + b;
      if Handle(p, a[0]).Ok? {
        FoldAppend(Handle(p, a[0]).value, a[1..], b);
      }
    }
  }

  /** Parsing printed chunks followed by anything folds the handlers over them
      and goes on from there. */
  lemma ParsePrinted(p: Parsing, cs: seq<Chunk>, rest: seq<byte>)
    requires AllPrintable(cs)
    ensures ParseRest(p, Print(cs) + rest)
            == match Fold(p, cs)
               case Err(e) => Err(e)
               case Ok(next) => ParseRest(next, rest)
  {
    WalkPrinted(cs, rest);
    FoldAppend(p, cs, WalkChunks(rest).chunks);
  }

  lemma AfterMagic(b: seq<byte>)
    ensures Parse(NSFE + b) == ParseRest(START, b)
  {
    assert (NSFE + b)[4..] == b;
  }

  /** NSFe files are those that start with the four letters; the plain parser gets
      the others, but nothing shorter. */
  lemma ToldByMagic(data: seq<byte>, plain: seq<byte> -> Result<Header, ParseError>)
    ensures |data| < 4 ==> ParseFile(data, plain) == Err(InvalidMagic)
    ensures NSFE <= data ==> ParseFile(data, plain) == Parse(data)
    ensures |data| >= 4 && !(NSFE <= data) ==> ParseFile(data, plain) == plain(data)
  {
    assert MAGIC == NSFE;
  }

  /** The parser undoes the printer: a printed file means the fold of its chunks. */
  lemma ParseOfPrint(cs: seq<Chunk>)
    requires AllPrintable(cs)
    ensures Parse(NSFE + Print(cs))
            == match Fold(START, cs)
               case Err(e) => Err(e)
               case Ok(p) => Finish(p)
  {
    AfterMagic(Print(cs));
    ParsePrinted(START, cs, []);
    assert Print(cs) + [] == Print(cs);
    if Fold(START, cs).Ok? {
      RestEnd(Fold(START, cs).value, []);
    }
  }

  /** Nothing from NEND on matters, not even NEND's own size field. */
  lemma NendEndsTheFile(cs: seq<Chunk>, size: int, junk: seq<byte>)
    requires AllPrintable(cs)
    ensures Parse(NSFE + (Print(cs) + (LE32(size) + IdBytes(NEND_ID) + junk))) == Parse(NSFE + Print(cs))
  {
    var tail := LE32(size) + IdBytes(NEND_ID) + junk;
    AfterMagic(Print(cs) + tail);
    ParsePrinted(START, cs, tail);
    ParseOfPrint(cs);
    assert tail[4..8] == IdBytes(NEND_ID);
    if Fold(START, cs).Ok? {
      RestStep(Fold(START, cs).value, tail);
    }
  }

  /** A chunk the parser has no use for: an ignored one, or an unknown one that
      is optional by its identifier. */
  predicate Skipped(c: Chunk) {
    Printable(c) && c.id !in HANDLED_IDS && (c.id in SKIPPED_IDS || !Mandatory(c.id))
  }

  /** Inserting such a chunk at any chunk boundary before NEND changes nothing,
      rejections included, whatever bytes follow. */
  lemma SkippedChunkIsInvisible(before: seq<Chunk>, c: Chunk, rest: seq<byte>)
    requires AllPrintable(before) && Skipped(c)
    ensures Parse(NSFE + (Print(before) + (Frame(c) + rest))) == Parse(NSFE + (Print(before) + rest))
  {
    AfterMagic(Print(before) + (Frame(c) + rest));
    AfterMagic(Print(before) + rest);
    ParsePrinted(START, before, Frame(c) + rest);
    ParsePrinted(START, before, rest);
    if Fold(START, before).Ok? {
      SkipFirst(Fold(START, before).value, c, rest);
    }
  }

  lemma SkipFirst(p: Parsing, c: Chunk, rest: seq<byte>)
    requires Skipped(c)
    ensures ParseRest(p, Frame(c) + rest) == ParseRest(p, rest)
  {
    WalkFrame(c, rest);
    SkippedHandled(p, c);
    FoldFirst(p, c, p, WalkChunks(rest).chunks);
  }

  lemma SkippedHandled(p: Parsing, c: Chunk)
    requires Skipped(c)
    ensures Handle(p, c) == Ok(p)
  {
    SameTables(c.id);
  }

  /** The mandatory-chunk rule: an unknown chunk whose identifier starts with an
      upper-case letter rejects the file at that point. */
  lemma MandatoryChunkRejects(before: seq<Chunk>, c: Chunk, rest: seq<byte>)
    requires AllPrintable(before) && Fold(START, before).Ok?
    requires Printable(c) && c.id !in HANDLED_IDS && c.id !in SKIPPED_IDS && Mandatory(c.id)
    ensures Parse(NSFE + (Print(before) + (Frame(c) + rest))) == Err(UnknownMandatory(c.id))
  {
    AfterMagic(Print(before) + (Frame(c) + rest));
    ParsePrinted(START, before, Frame(c) + rest);
    FirstRejects(Fold(START, before).value, c, rest);
  }

  lemma FirstRejects(p: Parsing, c: Chunk, rest: seq<byte>)
    requires Printable(c) && c.id !in HANDLED_IDS && c.id !in SKIPPED_IDS && Mandatory(c.id)
    ensures ParseRest(p, Frame(c) + rest) == Err(UnknownMandatory(c.id))
  {
    SameTables(c.id);
    WalkFrame(c, rest);
  }

  /** An INFO chunk of less than nine bytes rejects the file at that point. */
  lemma ShortInfoRejects(before: seq<Chunk>, data: seq<byte>, rest: seq<byte>)
    requires AllPrintable(before) && Fold(START, before).Ok? && |data| < 9
    ensures Parse(NSFE + (Print(before) + (Frame(Chunk(INFO_ID, data)) + rest))) == Err(InfoTooShort(|data|))
  {
    var c := Chunk(INFO_ID, data);
    AfterMagic(Print(before) + (Frame(c) + rest));
    ParsePrinted(START, before, Frame(c) + rest);
    FirstTooShort(Fold(START, before).value, c, rest);
  }

  lemma FirstTooShort(p: Parsing, c: Chunk, rest: seq<byte>)
    requires Printable(c) && c.id == INFO_ID && |c.data| < 9
    ensures ParseRest(p, Frame(c) + rest) == Err(InfoTooShort(|c.data|))
  {
    WalkFrame(c, rest);
  }

  /** A chunk whose data runs past the end of the file rejects it. */
  lemma TruncatedChunkRejects(before: seq<Chunk>, tail: seq<byte>)
    requires AllPrintable(before) && Fold(START, before).Ok?
    requires |tail| >= 8 && IdOf(tail[4..8]) != NEND_ID && 8 + FromLE32(tail[..4]) > |tail|
    ensures Parse(NSFE + (Print(before) + tail)) == Err(Truncated(IdOf(tail[4..8])))
  {
    AfterMagic(Print(before) + tail);
    ParsePrinted(START, before, tail);
    RestStep(Fold(START, before).value, tail);
  }

  /** A chunk that does not reject the file by itself. */
  predicate Acceptable(c: Chunk) {
    if c.id == INFO_ID then |c.data| >= 9
    else c.id in HANDLED_IDS || c.id in SKIPPED_IDS || !Mandatory(c.id)
  }

  lemma {:induction false} FoldAccepts(p: Parsing, cs: seq<Chunk>)
    ensures Fold(p, cs).Ok? <==> forall i :: 0 <= i < |cs| ==> Acceptable(cs[i])
    ensures Fold(p, cs).Ok? ==>
              (Fold(p, cs).value.hasInfo <==> p.hasInfo || exists i :: 0 <= i < |cs| && cs[i].id == INFO_ID)
    decreases |cs|
  {
    if cs != [] {
      HandleAccepts(p, cs[0]);
      if Acceptable(cs[0]) {
        FoldAccepts(Handle(p, cs[0]).value, cs[1..]);
        assert forall i :: 0 < i < |cs| ==> cs[i] == cs[1..][i - 1];
      }
    }
  }

  lemma HandleAccepts(p: Parsing, c: Chunk)
    ensures Handle(p, c).Ok? <==> Acceptable(c)
    ensures Handle(p, c).Ok? ==> (Handle(p, c).value.hasInfo <==> p.hasInfo || c.id == INFO_ID)
  {
  }

  lemma FinishAccepts(p: Parsing)
    ensures Finish(p).Ok? <==> p.hasInfo
    ensures !p.hasInfo ==> Finish(p) == Err(MissingInfo)
  {
  }

  /** Exactly the files with an INFO chunk and nothing unacceptable are accepted. */
  lemma AcceptedExactly(cs: seq<Chunk>)
    requires AllPrintable(cs)
    ensures Parse(NSFE + Print(cs)).Ok?
            <==> (exists i :: 0 <= i < |cs| && cs[i].id == INFO_ID) && forall i :: 0 <= i < |cs| ==> Acceptable(cs[i])
    ensures (forall i :: 0 <= i < |cs| ==> cs[i].id != INFO_ID && Acceptable(cs[i])) ==>
              Parse(NSFE + Print(cs)) == Err(MissingInfo)
  {
    ParseOfPrint(cs);
    FoldAccepts(START, cs);
    if Fold(START, cs).Ok? {
      FinishAccepts(Fold(START, cs).value);
    }
  }

  // ---- Printing metadata ---------------------------------------------------

  function JoinNul(strs: seq<seq<byte>>): seq<byte> {
    if strs == [] then [] else strs[0] + [0] + JoinNul(strs[1..])
  }

  predicate NulFree(strs: seq<seq<byte>>) {
    forall i :: 0 <= i < |strs| ==> 0 !in strs[i]
  }

  lemma IndexNulAt(s: seq<byte>, rest: seq<byte>)
    requires 0 !in s
    ensures IndexNul(s + [0] + rest) == |s|
  {
    var b := s + [0] + rest;
    var i := IndexNul(b);
    assert b[|s|] == 0;
    assert forall j :: 0 <= j < i ==> b[j] == b[..i][j] && b[j] in b[..i];
    assert forall j :: 0 <= j < |s| ==> b[j] == s[j];
  }

  function UpTo<T>(s: seq<T>, max: nat): seq<T> {
    if |s| <= max then s else s[..max]
  }

  lemma HeadUpTo<T>(s: seq<T>, max: nat)
    requires s != [] && max > 0
    ensures [s[0]] + UpTo(s[1..], max - 1) == UpTo(s, max)
  {
  }

  /** Splitting undoes joining, empty strings included, up to the limit. */
  lemma {:induction false} SplitOfJoin(strs: seq<seq<byte>>, max: nat)
    requires NulFree(strs)
    ensures SplitNul(JoinNul(strs), max) == UpTo(strs, max)
    decreases |strs|
  {
    if strs == [] || max == 0 {
      assert SplitNul(JoinNul(strs), max) == [];
    } else {
      SplitOfJoin(strs[1..], max - 1);
      SplitFirst(strs[0], JoinNul(strs[1..]), max);
      HeadUpTo(strs, max);
    }
  }

  /** A last string may lack its terminator. */
  lemma {:induction false} SplitOfUnterminated(strs: seq<seq<byte>>, last: seq<byte>, max: nat)
    requires NulFree(strs) && 0 !in last && last != [] && |strs| < max
    ensures SplitNul(JoinNul(strs) + last, max) == strs + [last]
    decreases |strs|
  {
    if strs == [] {
      assert JoinNul(strs) + last == last && strs + [last] == [last];
      assert IndexNul(last) == |last|;
    } else {
      SplitOfUnterminated(strs[1..], last, max - 1);
      SplitFirst(strs[0], JoinNul(strs[1..]) + last, max);
      JoinThenLast(strs, last);
      ConsThenLast(strs, last);
    }
  }

  lemma JoinThenLast(strs: seq<seq<byte>>, last: seq<byte>)
    requires strs != []
    ensures JoinNul(strs) + last == strs[0] + [0] + (JoinNul(strs[1..]) + last)
  {
    Regroup(strs[0] + [0], JoinNul(strs[1..]), last);
  }

  lemma ConsThenLast<T>(s: seq<T>, last: T)
    requires s != []
    ensures s + [last] == [s[0]] + (s[1..] + [last])
  {
  }

  lemma SplitFirst(s: seq<byte>, rest: seq<byte>, max: nat)
    requires 0 !in s && max > 0
    ensures SplitNul(s + [0] + rest, max) == [s] + SplitNul(rest, max - 1)
  {
    var b := s + [0] + rest;
    IndexNulAt(s, rest);
    assert b[..|s|] == s && b[|s| + 1..] == rest;
  }

  function PackInts(vs: seq<int32>): (b: seq<byte>)
    ensures |b| == 4 * |vs|
  {
    if vs == [] then [] else PackInts(vs[..|vs| - 1]) + LE32(vs[|vs| - 1])
  }

  lemma {:induction false} PackedAt(vs: seq<int32>, i: nat)
    requires i < |vs|
    ensures PackInts(vs)[4 * i..4 * i + 4] == LE32(vs[i])
  {
    if i < |vs| - 1 {
      PackedAt(vs[..|vs| - 1], i);
    }
  }

  /** Packed values are read back up to the track count, or all of them while the
      count is not known. */
  lemma IntsOfPack(h: Header, vs: seq<int32>)
    ensures Int32s(h, PackInts(vs)) == if 0 < h.trackCount < |vs| then vs[..h.trackCount] else vs
  {
    var b := PackInts(vs);
    forall i | 0 <= i < Int32Count(h, b) ensures Int32s(h, b)[i] == vs[i] {
      PackedAt(vs, i);
      Int32RoundTrip(vs[i]);
    }
  }

  /** One piece of metadata, each with a chunk of its own. */
  datatype Item =
    | Auth(strs: seq<seq<byte>>)
    | Titles(titles: seq<seq<byte>>)
    | Times(times: seq<int32>)
    | Fades(fades: seq<int32>)
    | Playlist(order: seq<byte>)

  function Kind(x: Item): nat {
    match x
    case Auth(_) => 0
    case Titles(_) => 1
    case Times(_) => 2
    case Fades(_) => 3
    case Playlist(_) => 4
  }

  function ChunkOf(x: Item): Chunk {
    match x
    case Auth(strs) => Chunk(AUTH_ID, JoinNul(strs))
    case Titles(titles) => Chunk(TLBL_ID, JoinNul(titles))
    case Times(times) => Chunk(TIME_ID, PackInts(times))
    case Fades(fades) => Chunk(FADE_ID, PackInts(fades))
    case Playlist(order) => Chunk(PLST_ID, order)
  }

  function Chunks(xs: seq<Item>): seq<Chunk> {
    seq(|xs|, i requires 0 <= i < |xs| => ChunkOf(xs[i]))
  }

  /** An INFO chunk for n tracks; the byte after the count, if there is one, is the
      starting track, 0-indexed, and whatever follows has no meaning. */
  function InfoChunk(addresses: seq<byte>, n: byte, tail: seq<byte>): Chunk
    requires |addresses| == 8
  {
    Chunk(INFO_ID, addresses + [n] + tail)
  }

  /** The starting track as listed, from 1. */
  function FirstOf(tail: seq<byte>): nat {
    if tail == [] then 1 else tail[0] as int + 1
  }

  /** What fits a file of n tracks. */
  predicate Fits(x: Item, n: nat) {
    match x
    case Auth(strs) => NulFree(strs) && |strs| <= 4
    case Titles(titles) => NulFree(titles) && |titles| <= n
    case Times(times) => |times| <= n
    case Fades(fades) => |fades| <= n
    case Playlist(_) => true
  }

  ghost predicate KindsDistinct(xs: seq<Item>) {
    forall i, j :: 0 <= i < j < |xs| ==> Kind(xs[i]) != Kind(xs[j])
  }

  // ---- What the metadata means ---------------------------------------------

  datatype Slots = Slots(
    auth: seq<seq<byte>>, titles: seq<seq<byte>>, times: seq<int32>, fades: seq<int32>, order: seq<byte>)

  const NO_SLOTS := Slots([], [], [], [], [])

  function StrAt(strs: seq<seq<byte>>, i: nat): seq<byte> {
    if i < |strs| then strs[i] else []
  }

  function IntAt(vs: seq<int32>, i: nat): int {
    if i < |vs| then vs[i] else 0
  }

  function Max(a: nat, b: nat): nat {
    if a < b then b else a
  }

  /** Internal track i: the i-th title, duration and fade, each optional. */
  function TracksOf(sl: Slots): (r: seq<TrackInfo>) {
    seq(Max(|sl.titles|, Max(|sl.times|, |sl.fades|)),
        i requires 0 <= i => TrackInfo(StrAt(sl.titles, i), IntAt(sl.times, i), IntAt(sl.fades, i)))
  }

  /** The parser's state once INFO and this metadata have been read. */
  function StateOf(n: nat, first: nat, sl: Slots): Parsing {
    Parsing(Header(StrAt(sl.auth, 0), StrAt(sl.auth, 1), StrAt(sl.auth, 2), n, first, TracksOf(sl)),
            true, sl.order)
  }

  predicate Free(sl: Slots, x: Item) {
    match x
    case Auth(_) => sl.auth == []
    case Titles(_) => sl.titles == []
    case Times(_) => sl.times == []
    case Fades(_) => sl.fades == []
    case Playlist(_) => sl.order == []
  }

  function Put(sl: Slots, x: Item): Slots {
    match x
    case Auth(strs) => sl.(auth := strs)
    case Titles(titles) => sl.(titles := titles)
    case Times(times) => sl.(times := times)
    case Fades(fades) => sl.(fades := fades)
    case Playlist(order) => sl.(order := order)
  }

  function PutAll(sl: Slots, xs: seq<Item>): Slots
    decreases |xs|
  {
    if xs == [] then sl else PutAll(Put(sl, xs[0]), xs[1..])
  }

  lemma TitlesFill(sl: Slots, titles: seq<seq<byte>>)
    requires sl.titles == []
    ensures SetTitles(TracksOf(sl), titles) == TracksOf(sl.(titles := titles))
  {
  }

  lemma TimesFill(sl: Slots, vs: seq<int32>)
    requires sl.times == []
    ensures SetInts(TracksOf(sl), DurationMs, vs) == TracksOf(sl.(times := vs))
  {
  }

  lemma FadesFill(sl: Slots, vs: seq<int32>)
    requires sl.fades == []
    ensures SetInts(TracksOf(sl), FadeMs, vs) == TracksOf(sl.(fades := vs))
  {
  }

  lemma AuthDispatch(p: Parsing, data: seq<byte>)
    ensures Handle(p, Chunk(AUTH_ID, data)) == Ok(p.(h := HandleAuth(p.h, data)))
  {
  }

  lemma AuthReads(n: nat, first: nat, sl: Slots, strs: seq<seq<byte>>)
    requires NulFree(strs) && |strs| <= 4 && sl.auth == []
    ensures HandleAuth(StateOf(n, first, sl).h, JoinNul(strs)) == StateOf(n, first, sl.(auth := strs)).h
  {
    SplitOfJoin(strs, 4);
    assert TracksOf(sl) == TracksOf(sl.(auth := strs));
  }

  lemma TitlesRead(p: Parsing, titles: seq<seq<byte>>)
    requires NulFree(titles) && |titles| <= p.h.trackCount
    ensures Handle(p, Chunk(TLBL_ID, JoinNul(titles))) == Ok(p.(h := p.h.(tracks := SetTitles(p.h.tracks, titles))))
  {
    SplitOfJoin(titles, p.h.trackCount);
  }

  lemma IntsDispatch(p: Parsing, data: seq<byte>)
    ensures Handle(p, Chunk(TIME_ID, data))
            == Ok(p.(h := p.h.(tracks := SetInts(p.h.tracks, DurationMs, Int32s(p.h, data)))))
    ensures Handle(p, Chunk(FADE_ID, data))
            == Ok(p.(h := p.h.(tracks := SetInts(p.h.tracks, FadeMs, Int32s(p.h, data)))))
  {
  }

  lemma TimesRead(p: Parsing, vs: seq<int32>)
    requires |vs| <= p.h.trackCount
    ensures Handle(p, Chunk(TIME_ID, PackInts(vs))) == Ok(p.(h := p.h.(tracks := SetInts(p.h.tracks, DurationMs, vs))))
  {
    IntsDispatch(p, PackInts(vs));
    IntsOfPack(p.h, vs);
  }

  lemma FadesRead(p: Parsing, vs: seq<int32>)
    requires |vs| <= p.h.trackCount
    ensures Handle(p, Chunk(FADE_ID, PackInts(vs))) == Ok(p.(h := p.h.(tracks := SetInts(p.h.tracks, FadeMs, vs))))
  {
    IntsDispatch(p, PackInts(vs));
    IntsOfPack(p.h, vs);
  }

  lemma PlaylistReads(p: Parsing, order: seq<byte>)
    ensures Handle(p, Chunk(PLST_ID, order)) == Ok(p.(plst := order))
  {
  }

  /** Reading one printed item fills its slot, whatever has been read before. */
  lemma ItemFillsSlot(n: nat, first: nat, sl: Slots, x: Item)
    requires Free(sl, x) && Fits(x, n)
    ensures Handle(StateOf(n, first, sl), ChunkOf(x)) == Ok(StateOf(n, first, Put(sl, x)))
  {
    var p := StateOf(n, first, sl);
    match x
    case Auth(strs) => AuthDispatch(p, JoinNul(strs)); AuthReads(n, first, sl, strs);
    case Titles(titles) => TitlesRead(p, titles); TitlesFill(sl, titles);
    case Times(times) => TimesRead(p, times); TimesFill(sl, times);
    case Fades(fades) => FadesRead(p, fades); FadesFill(sl, fades);
    case Playlist(order) => PlaylistReads(p, order);
  }

  // ---- Any item in any state ------------------------------------------------

  /** How many of m values a chunk can set while the track count is n, which is 0
      before INFO: then titles are not read, and numbers are not limited. */
  function Used(x: Item, n: nat): nat {
    match x
    case Titles(titles) => if |titles| < n then |titles| else n
    case Times(times) => if 0 < n < |times| then n else |times|
    case Fades(fades) => if 0 < n < |fades| then n else |fades|
    case _ => 0
  }

  ghost predicate Overwritten(was: TrackInfo, now: TrackInfo, x: Item, i: nat) {
    && now.title == (if x.Titles? && i < |x.titles| then x.titles[i] else was.title)
    && now.durationMs == (if x.Times? && i < |x.times| then x.times[i] else was.durationMs)
    && now.fadeMs == (if x.Fades? && i < |x.fades| then x.fades[i] else was.fadeMs)
  }

  /** From p to q, item x has set exactly its own fields of the first Used slots, or
      its own strings, or the playlist. */
  ghost predicate SetBy(p: Parsing, x: Item, q: Parsing) {
    && q.hasInfo == p.hasInfo && q.h.trackCount == p.h.trackCount && q.h.firstTrack == p.h.firstTrack
    && q.plst == (if x.Playlist? then x.order else p.plst)
    && q.h.title == (if x.Auth? && |x.strs| > 0 then x.strs[0] else p.h.title)
    && q.h.artist == (if x.Auth? && |x.strs| > 1 then x.strs[1] else p.h.artist)
    && q.h.copyright == (if x.Auth? && |x.strs| > 2 then x.strs[2] else p.h.copyright)
    && |q.h.tracks| == Max(|p.h.tracks|, Used(x, p.h.trackCount))
    && forall i: nat ::
         if i < Used(x, p.h.trackCount)
         then Overwritten(Slot(p.h.tracks, i), Slot(q.h.tracks, i), x, i)
         else Slot(q.h.tracks, i) == Slot(p.h.tracks, i)
  }

  /** Wherever its chunk stands, before INFO, twice, or after others of its kind, an
      item sets what is its own and leaves everything else as it was. */
  lemma ItemOverwrites(p: Parsing, x: Item)
    requires x.Auth? ==> NulFree(x.strs)
    requires x.Titles? ==> NulFree(x.titles)
    ensures Handle(p, ChunkOf(x)).Ok? && SetBy(p, x, Handle(p, ChunkOf(x)).value)
  {
    match x
    case Auth(strs) =>
      AuthDispatch(p, JoinNul(strs));
      SplitOfJoin(strs, 4);
    case Titles(titles) => TitlesOverwrite(p, titles);
    case Times(times) => TimesOverwrite(p, times);
    case Fades(fades) => FadesOverwrite(p, fades);
    case Playlist(order) => PlaylistReads(p, order);
  }

  lemma TitlesOverwrite(p: Parsing, titles: seq<seq<byte>>)
    requires NulFree(titles)
    ensures Handle(p, ChunkOf(Titles(titles))).Ok?
    ensures SetBy(p, Titles(titles), Handle(p, ChunkOf(Titles(titles))).value)
  {
    SplitOfJoin(titles, p.h.trackCount);
    TitlesSet(p.h.tracks, titles, UpTo(titles, p.h.trackCount));
  }

  lemma TimesOverwrite(p: Parsing, times: seq<int32>)
    ensures Handle(p, ChunkOf(Times(times))).Ok?
    ensures SetBy(p, Times(times), Handle(p, ChunkOf(Times(times))).value)
  {
    IntsDispatch(p, PackInts(times));
    IntsOfPack(p.h, times);
    IntsSet(p.h.tracks, DurationMs, Int32s(p.h, PackInts(times)));
  }

  lemma FadesOverwrite(p: Parsing, fades: seq<int32>)
    ensures Handle(p, ChunkOf(Fades(fades))).Ok?
    ensures SetBy(p, Fades(fades), Handle(p, ChunkOf(Fades(fades))).value)
  {
    IntsDispatch(p, PackInts(fades));
    IntsOfPack(p.h, fades);
    IntsSet(p.h.tracks, FadeMs, Int32s(p.h, PackInts(fades)));
  }

  lemma TitlesSet(tracks: seq<TrackInfo>, titles: seq<seq<byte>>, used: seq<seq<byte>>)
    requires used <= titles
    ensures |SetTitles(tracks, used)| == Max(|tracks|, |used|)
    ensures forall i: nat ::
              Slot(SetTitles(tracks, used), i)
              == if i < |used| then Slot(tracks, i).(title := titles[i]) else Slot(tracks, i)
  {
  }

  lemma IntsSet(tracks: seq<TrackInfo>, field: Field, vs: seq<int32>)
    ensures |SetInts(tracks, field, vs)| == Max(|tracks|, |vs|)
    ensures forall i: nat ::
              Slot(SetInts(tracks, field, vs), i)
              == if i >= |vs| then Slot(tracks, i)
                 else if field == DurationMs then Slot(tracks, i).(durationMs := vs[i])
                 else Slot(tracks, i).(fadeMs := vs[i])
  {
  }

  /** INFO, wherever it stands, sets the count and the starting track only. */
  lemma InfoOverwrites(p: Parsing, addresses: seq<byte>, n: byte, tail: seq<byte>)
    requires |addresses| == 8
    ensures Handle(p, InfoChunk(addresses, n, tail))
            == Ok(Parsing(Header(p.h.title, p.h.artist, p.h.copyright, n, FirstOf(tail), p.h.tracks), true, p.plst))
  {
  }

  lemma {:induction false} ItemsFillSlots(n: nat, first: nat, sl: Slots, xs: seq<Item>)
    requires KindsDistinct(xs)
    requires forall i :: 0 <= i < |xs| ==> Free(sl, xs[i]) && Fits(xs[i], n)
    ensures Fold(StateOf(n, first, sl), Chunks(xs)) == Ok(StateOf(n, first, PutAll(sl, xs)))
    decreases |xs|
  {
    if xs != [] {
      ItemFillsSlot(n, first, sl, xs[0]);
      var rest := xs[1..];
      forall i | 0 <= i < |rest| ensures Free(Put(sl, xs[0]), rest[i]) {
        assert rest[i] == xs[i + 1] && Kind(xs[0]) != Kind(xs[i + 1]);
      }
      ItemsFillSlots(n, first, Put(sl, xs[0]), rest);
      assert Chunks(xs)[1..] == Chunks(rest);
    }
  }

  /** The header a file of n tracks with this metadata has.  A non-empty playlist
      fixes both the track count and the tracks. */
  function Described(n: nat, first: nat, sl: Slots): Header {
    var tracks := TracksOf(sl);
    Header(StrAt(sl.auth, 0), StrAt(sl.auth, 1), StrAt(sl.auth, 2),
           if sl.order == [] then n else |sl.order|, first,
           if sl.order == [] then tracks
           else seq(|sl.order|, i requires 0 <= i < |sl.order| => Slot(tracks, sl.order[i])))
  }

  /** Printing metadata, INFO first and the rest in any order, then parsing it
      gives the metadata back. */
  lemma MetadataRoundTrip(addresses: seq<byte>, n: byte, tail: seq<byte>, xs: seq<Item>)
    requires |addresses| == 8 && |tail| < TWO_32 - 9 && KindsDistinct(xs)
    requires forall i :: 0 <= i < |xs| ==> Fits(xs[i], n)
    requires forall i :: 0 <= i < |xs| ==> |ChunkOf(xs[i]).data| < TWO_32
    ensures Parse(NSFE + Print([InfoChunk(addresses, n, tail)] + Chunks(xs)))
            == Ok(Described(n, FirstOf(tail), PutAll(NO_SLOTS, xs)))
  {
    var info := InfoChunk(addresses, n, tail);
    var p := StateOf(n, FirstOf(tail), PutAll(NO_SLOTS, xs));
    PrintableMetadata(info, xs);
    MetadataFolds(addresses, n, tail, xs);
    ParsedAs([info] + Chunks(xs), p);
    FinishState(n, FirstOf(tail), PutAll(NO_SLOTS, xs));
  }

  lemma MetadataFolds(addresses: seq<byte>, n: byte, tail: seq<byte>, xs: seq<Item>)
    requires |addresses| == 8 && |tail| < TWO_32 - 9 && KindsDistinct(xs)
    requires forall i :: 0 <= i < |xs| ==> Fits(xs[i], n)
    ensures Fold(START, [InfoChunk(addresses, n, tail)] + Chunks(xs))
            == Ok(StateOf(n, FirstOf(tail), PutAll(NO_SLOTS, xs)))
  {
    InfoReads(addresses, n, tail);
    FoldFirst(START, InfoChunk(addresses, n, tail), StateOf(n, FirstOf(tail), NO_SLOTS), Chunks(xs));
    MetadataFoldsFromInfo(n, FirstOf(tail), xs);
  }

  lemma MetadataFoldsFromInfo(n: nat, first: nat, xs: seq<Item>)
    requires KindsDistinct(xs)
    requires forall i :: 0 <= i < |xs| ==> Fits(xs[i], n)
    ensures Fold(StateOf(n, first, NO_SLOTS), Chunks(xs)) == Ok(StateOf(n, first, PutAll(NO_SLOTS, xs)))
  {
    forall i | 0 <= i < |xs| ensures Free(NO_SLOTS, xs[i]) {
      AllFree(xs[i]);
    }
    ItemsFillSlots(n, first, NO_SLOTS, xs);
  }

  lemma AllFree(x: Item)
    ensures Free(NO_SLOTS, x)
  {
  }

  lemma ParsedAs(cs: seq<Chunk>, p: Parsing)
    requires AllPrintable(cs) && Fold(START, cs) == Ok(p)
    ensures Parse(NSFE + Print(cs)) == Finish(p)
  {
    ParseOfPrint(cs);
  }

  lemma FinishState(n: nat, first: nat, sl: Slots)
    ensures Finish(StateOf(n, first, sl)) == Ok(Described(n, first, sl))
  {
    if sl.order != [] {
      var tracks := TracksOf(sl);
      assert Remap(tracks, sl.order) == seq(|sl.order|, i requires 0 <= i < |sl.order| => Slot(tracks, sl.order[i]));
    }
  }

  lemma InfoReads(addresses: seq<byte>, n: byte, tail: seq<byte>)
    requires |addresses| == 8
    ensures Handle(START, InfoChunk(addresses, n, tail)) == Ok(StateOf(n, FirstOf(tail), NO_SLOTS))
  {
    assert TracksOf(NO_SLOTS) == [];
  }

  lemma FoldFirst(p: Parsing, c: Chunk, next: Parsing, rest: seq<Chunk>)
    requires Handle(p, c) == Ok(next)
    ensures Fold(p, [c] + rest) == Fold(next, rest)
  {
    assert ([c] + rest)[1..] == rest;
  }

  lemma PrintableMetadata(info: Chunk, xs: seq<Item>)
    requires info.id == INFO_ID && |info.data| < TWO_32
    requires forall i :: 0 <= i < |xs| ==> |ChunkOf(xs[i]).data| < TWO_32
    ensures AllPrintable([info] + Chunks(xs))
  {
    forall i | 0 <= i < |xs| ensures Printable(ChunkOf(xs[i])) {}
  }

  // ---- Order independence --------------------------------------------------

  /** Each item ends up in its slot; a slot without an item stays as it was. */
  lemma {:induction false} PutAllHolds(sl: Slots, xs: seq<Item>, x: Item)
    requires KindsDistinct(xs)
    ensures x in xs ==> Put(PutAll(sl, xs), x) == PutAll(sl, xs)
    ensures (forall i :: 0 <= i < |xs| ==> Kind(xs[i]) != Kind(x)) ==>
              Put(PutAll(sl, xs), x) == PutAll(Put(sl, x), xs)
    decreases |xs|
  {
    if xs != [] {
      var rest := xs[1..];
      PutAllHolds(Put(sl, xs[0]), rest, x);
      if x == xs[0] {
        forall i | 0 <= i < |rest| ensures Kind(rest[i]) != Kind(x) {
          assert rest[i] == xs[i + 1];
        }
        assert Put(Put(sl, x), x) == Put(sl, x);
      } else if x in xs {
        assert x in rest;
      } else if forall i :: 0 <= i < |xs| ==> Kind(xs[i]) != Kind(x) {
        assert Kind(xs[0]) != Kind(x);
        assert forall i :: 0 <= i < |rest| ==> rest[i] == xs[i + 1];
        assert Put(Put(sl, xs[0]), x) == Put(Put(sl, x), xs[0]);
      }
    }
  }

  /** What parsing recovers does not depend on the order of the chunks behind
      INFO. */
  lemma OrderIsIrrelevant(addresses: seq<byte>, n: byte, tail: seq<byte>, xs: seq<Item>, ys: seq<Item>)
    requires |addresses| == 8 && |tail| < TWO_32 - 9 && KindsDistinct(xs) && KindsDistinct(ys)
    requires forall x :: x in xs <==> x in ys
    requires forall x :: x in xs ==> Fits(x, n) && |ChunkOf(x).data| < TWO_32
    ensures Parse(NSFE + Print([InfoChunk(addresses, n, tail)] + Chunks(xs)))
            == Parse(NSFE + Print([InfoChunk(addresses, n, tail)] + Chunks(ys)))
  {
    assert forall i :: 0 <= i < |ys| ==> ys[i] in ys;
    MetadataRoundTrip(addresses, n, tail, xs);
    MetadataRoundTrip(addresses, n, tail, ys);
    SlotsOfAnyOrder(xs, ys);
  }

  lemma SlotsOfAnyOrder(xs: seq<Item>, ys: seq<Item>)
    requires KindsDistinct(xs) && KindsDistinct(ys)
    requires forall x :: x in xs <==> x in ys
    ensures PutAll(NO_SLOTS, xs) == PutAll(NO_SLOTS, ys)
  {
    var a, b := PutAll(NO_SLOTS, xs), PutAll(NO_SLOTS, ys);
    var x0 := SameSlot(xs, ys, Auth([]));
    var x1 := SameSlot(xs, ys, Titles([]));
    var x2 := SameSlot(xs, ys, Times([]));
    var x3 := SameSlot(xs, ys, Fades([]));
    var x4 := SameSlot(xs, ys, Playlist([]));
    assert a.auth == b.auth && a.titles == b.titles && a.times == b.times && a.fades == b.fades;
  }

  lemma SameSlot(xs: seq<Item>, ys: seq<Item>, empty: Item) returns (x: Item)
    requires KindsDistinct(xs) && KindsDistinct(ys)
    requires forall x :: x in xs <==> x in ys
    requires Put(NO_SLOTS, empty) == NO_SLOTS
    ensures Kind(x) == Kind(empty)
    ensures Put(PutAll(NO_SLOTS, xs), x) == PutAll(NO_SLOTS, xs)
    ensures Put(PutAll(NO_SLOTS, ys), x) == PutAll(NO_SLOTS, ys)
  {
    if i :| 0 <= i < |xs| && Kind(xs[i]) == Kind(empty) {
      x := xs[i];
      assert x in xs;
    } else {
      x := empty;
      forall j | 0 <= j < |ys| ensures Kind(ys[j]) != Kind(empty) {
        assert ys[j] in ys;
        assert ys[j] in xs;
      }
    }
    PutAllHolds(NO_SLOTS, xs, x);
    PutAllHolds(NO_SLOTS, ys, x);
  }
}
