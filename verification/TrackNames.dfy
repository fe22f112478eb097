/** The track list of a chiptune and the folder made of it: buildTrackList,
    parseNSF and ChipDir.OnAdd of internal/vfs/vfs.go. */
module TrackNames {
  import opened Bytes
  import opened Wrappers
  import opened Text
  import Decimal
  import F = WavFormat
  import N = NsfeSpec
  import L = LruSpec
  import R = NsfeRoundTrip
  import opened Render

  const SAMPLE_RATE := 44100

  /** How texts relate to runes and bytes: which runes are spaces, how text is
      decoded from a file, and how it is encoded into tags. */
  datatype Encoding = Encoding(isSpace: Spaces, decode: seq<byte> -> string, encode: string -> seq<byte>)

  datatype ChipTrack = ChipTrack(title: string, playMs: int, fadeMs: int)

  datatype ChipFile = ChipFile(album: string, artist: string, tracks: seq<ChipTrack>, singleTrack: bool)

  /** Formats with one file name a file hold at most one track. */
  predicate WellFormed(cf: ChipFile) {
    cf.singleTrack ==> |cf.tracks| <= 1
  }

  function Number(n: nat): string {
    Decimal.ToText(Decimal.Digits(n))
  }

  function PaddedNumber(n: nat): string {
    Decimal.ToText(Decimal.PaddedDigits(n))
  }

  function TitleOf(cf: ChipFile, i: nat, enc: Encoding): string
    requires i < |cf.tracks|
  {
    var title := CleanTag(cf.tracks[i].title, enc.isSpace);
    if title == "" then "Track " + Number(i + 1) else title
  }

  function FileNameOf(cf: ChipFile, i: nat, enc: Encoding): string
    requires i < |cf.tracks|
  {
    var title := TitleOf(cf, i, enc);
    if cf.singleTrack then Sanitized(title, enc.isSpace) + ".wav"
    else if CleanTag(cf.tracks[i].title, enc.isSpace) == "" then "Track_" + PaddedNumber(i + 1) + ".wav"
    else PaddedNumber(i + 1) + " - " + Sanitized(title, enc.isSpace) + ".wav"
  }

  function EntryOf(cf: ChipFile, i: nat, defaultPlayMs: int, defaultFadeMs: int, enc: Encoding): TrackEntry
    requires i < |cf.tracks|
  {
    TrackEntry(
      FileNameOf(cf, i, enc), i,
      ClampMs(cf.tracks[i].playMs, defaultPlayMs, MAX_PLAY_MS),
      ClampMs(cf.tracks[i].fadeMs, defaultFadeMs, MAX_FADE_MS),
      F.Options(SAMPLE_RATE, 2,
                F.Metadata(enc.encode(TitleOf(cf, i, enc)),
                           enc.encode(CleanTag(cf.artist, enc.isSpace)),
                           enc.encode(CleanTag(cf.album, enc.isSpace)),
                           [], i + 1)))
  }

  /** The loop of buildTrackList, on what a parser returned; None is a file that
      is not recognized, not readable or not parseable. */
  method BuildTrackList(parsed: Option<ChipFile>, defaultPlayMs: int, defaultFadeMs: int, enc: Encoding)
    returns (r: Option<seq<TrackEntry>>)
    ensures r.Some? <==> parsed.Some?
    ensures r.Some? ==>
              && |r.value| == |parsed.value.tracks|
              && forall i :: 0 <= i < |r.value| ==>
                   r.value[i] == EntryOf(parsed.value, i, defaultPlayMs, defaultFadeMs, enc)
  {
    if parsed.None? {
      return None;
    }
    var cf := parsed.value;
    var entries: seq<TrackEntry> := [];
    for i := 0 to |cf.tracks|
      invariant |entries| == i
      invariant forall j :: 0 <= j < i ==> entries[j] == EntryOf(cf, j, defaultPlayMs, defaultFadeMs, enc)
    {
      var entry := BuildEntry(cf, i, defaultPlayMs, defaultFadeMs, enc);
      entries := entries + [entry];
    }
    r := Some(entries);
  }

  /** One turn of that loop. */
  method BuildEntry(cf: ChipFile, i: nat, defaultPlayMs: int, defaultFadeMs: int, enc: Encoding)
    returns (entry: TrackEntry)
    requires i < |cf.tracks|
    ensures entry == EntryOf(cf, i, defaultPlayMs, defaultFadeMs, enc)
  {
    var t := cf.tracks[i];
    var title := CleanTag(t.title, enc.isSpace);
    var untitled := title == "";
    if untitled {
      title := "Track " + Number(i + 1);
    }
    var sanitized := SanitizeFilename(title, enc.isSpace);
    var filename: string;
    if cf.singleTrack {
      filename := sanitized + ".wav";
    } else if untitled {
      filename := "Track_" + PaddedNumber(i + 1) + ".wav";
    } else {
      filename := PaddedNumber(i + 1) + " - " + sanitized + ".wav";
    }
    var metadata := F.Metadata(
      enc.encode(title), enc.encode(CleanTag(cf.artist, enc.isSpace)), enc.encode(CleanTag(cf.album, enc.isSpace)),
      [], i + 1);
    entry := TrackEntry(
      filename, i,
      ClampMs(t.playMs, defaultPlayMs, MAX_PLAY_MS), ClampMs(t.fadeMs, defaultFadeMs, MAX_FADE_MS),
      F.Options(SAMPLE_RATE, 2, metadata));
  }

  /** The mount options that reach the track list. */
  class MountOptions {
    var defaultPlayMs: int
    var defaultFadeMs: int
    var cacheBytes: int

    constructor (playMs: int, fadeMs: int, bytes: int)
      ensures defaultPlayMs == playMs && defaultFadeMs == fadeMs && cacheBytes == bytes
    {
      defaultPlayMs, defaultFadeMs, cacheBytes := playMs, fadeMs, bytes;
    }

    method ApplyDefaults()
      modifies this
      ensures defaultPlayMs == if old(defaultPlayMs) > 0 then old(defaultPlayMs) else 180_000
      ensures defaultFadeMs == if old(defaultFadeMs) > 0 then old(defaultFadeMs) else 8_000
      ensures cacheBytes == if old(cacheBytes) > 0 then old(cacheBytes) else 256 * 1024 * 1024
    {
      if defaultPlayMs <= 0 {
        defaultPlayMs := 180_000;
      }
      if defaultFadeMs <= 0 {
        defaultFadeMs := 8_000;
      }
      if cacheBytes <= 0 {
        cacheBytes := 256 * 1024 * 1024;
      }
    }
  }

  /** Every track that is listed can be rendered within the safety ceiling. */
  lemma EntryInRange(cf: ChipFile, i: nat, defaultPlayMs: int, defaultFadeMs: int, enc: Encoding)
    requires i < |cf.tracks| && defaultPlayMs > 0 && defaultFadeMs > 0
    ensures var t := EntryOf(cf, i, defaultPlayMs, defaultFadeMs, enc);
            t.InRange() && t.playMs > 0 && t.fadeMs > 0
  {
  }

  function Min(a: int, b: int): int {
    if a < b then a else b
  }

  /** A duration or fade of zero or less is not taken as given: it becomes the
      configured default.  Either is cut at twenty minutes of play and one of fade. */
  lemma ZeroIsDefault(cf: ChipFile, i: nat, defaultPlayMs: int, defaultFadeMs: int, enc: Encoding)
    requires i < |cf.tracks| && defaultPlayMs > 0 && defaultFadeMs > 0
    ensures var t, given := EntryOf(cf, i, defaultPlayMs, defaultFadeMs, enc), cf.tracks[i];
            && (given.playMs <= 0 ==> t.playMs == Min(defaultPlayMs, 1_200_000))
            && (given.fadeMs <= 0 ==> t.fadeMs == Min(defaultFadeMs, 60_000))
            && (given.playMs > 0 ==> t.playMs == Min(given.playMs, 1_200_000))
            && (given.fadeMs > 0 ==> t.fadeMs == Min(given.fadeMs, 60_000))
  {
  }

  /** The i-th listed name stands for the emulator's track i, so the tracks of a
      mount have cache keys of their own. */
  lemma KeysDistinct(
      path: string, cf: ChipFile, i: nat, path': string, cf': ChipFile, j: nat,
      defaultPlayMs: int, defaultFadeMs: int, enc: Encoding)
    requires i < |cf.tracks| && j < |cf'.tracks|
    ensures var s := EntryOf(cf, i, defaultPlayMs, defaultFadeMs, enc);
            var t := EntryOf(cf', j, defaultPlayMs, defaultFadeMs, enc);
            && s.trackIdx == i && t.trackIdx == j
            && (L.Key(path, s.trackIdx) == L.Key(path', t.trackIdx) <==> path == path' && i == j)
  {
  }

  // ---- File names ----------------------------------------------------------

  /** The number of a name is written with at least two digits and no other
      leading zero. */
  predicate TwoDigits(ds: seq<Decimal.digit>, n: nat) {
    Decimal.Value(ds) == n && |ds| >= 2 && (|ds| > 2 ==> ds[0] != 0)
  }

  /** How a track is titled: by its cleaned tag, or by its place. */
  lemma TitleShape(cf: ChipFile, i: nat, enc: Encoding) returns (ds: seq<Decimal.digit>)
    requires i < |cf.tracks|
    ensures Decimal.Value(ds) == i + 1 && ds != [] && ds[0] != 0
    ensures var given := CleanTag(cf.tracks[i].title, enc.isSpace);
            TitleOf(cf, i, enc) == if given == "" then "Track " + Decimal.ToText(ds) else given
  {
    ds := Decimal.Digits(i + 1);
    Decimal.ValueOfDigits(i + 1);
    Decimal.NoLeadingZero(i + 1);
  }

  /** How a track's file is named. */
  lemma NameShape(cf: ChipFile, i: nat, enc: Encoding) returns (ds: seq<Decimal.digit>)
    requires i < |cf.tracks|
    ensures TwoDigits(ds, i + 1)
    ensures var given := CleanTag(cf.tracks[i].title, enc.isSpace);
            FileNameOf(cf, i, enc)
            == if cf.singleTrack then Sanitized(TitleOf(cf, i, enc), enc.isSpace) + ".wav"
               else if given == "" then "Track_" + Decimal.ToText(ds) + ".wav"
               else Decimal.ToText(ds) + " - " + Sanitized(given, enc.isSpace) + ".wav"
  {
    ds := Decimal.PaddedDigits(i + 1);
    Decimal.ValueOfPaddedDigits(i + 1);
    Decimal.NoLeadingZero(i + 1);
  }

  lemma PaddedInjective(a: nat, s: string, b: nat, t: string)
    requires s != [] ==> !Decimal.IsDigit(s[0])
    requires t != [] ==> !Decimal.IsDigit(t[0])
    requires PaddedNumber(a) + s == PaddedNumber(b) + t
    ensures a == b
  {
    Decimal.TextPrefixInjective(Decimal.PaddedDigits(a), s, Decimal.PaddedDigits(b), t);
    Decimal.ValueOfPaddedDigits(a);
    Decimal.ValueOfPaddedDigits(b);
  }

  /** No two tracks of a file get the same name, whatever their titles are: the
      number in front decides. */
  lemma NamesDistinct(cf: ChipFile, i: nat, j: nat, enc: Encoding)
    requires WellFormed(cf) && i < |cf.tracks| && j < |cf.tracks|
    ensures FileNameOf(cf, i, enc) == FileNameOf(cf, j, enc) <==> i == j
  {
    var a, b := FileNameOf(cf, i, enc), FileNameOf(cf, j, enc);
    NameStart(cf, i, enc);
    NameStart(cf, j, enc);
    if !cf.singleTrack && a == b {
      var ti := CleanTag(cf.tracks[i].title, enc.isSpace) != "";
      var tj := CleanTag(cf.tracks[j].title, enc.isSpace) != "";
      if ti && tj {
        var si, sj := Sanitized(TitleOf(cf, i, enc), enc.isSpace), Sanitized(TitleOf(cf, j, enc), enc.isSpace);
        NumberedSame(i + 1, si, j + 1, sj);
      } else if !ti && !tj {
        UntitledSame(i + 1, j + 1);
      }
    }
  }

  /** Numbered names start with a digit, the others do not. */
  lemma NameStart(cf: ChipFile, i: nat, enc: Encoding)
    requires i < |cf.tracks|
    ensures var name := FileNameOf(cf, i, enc);
            name != [] &&
            (!cf.singleTrack ==>
               (Decimal.IsDigit(name[0]) <==> CleanTag(cf.tracks[i].title, enc.isSpace) != ""))
  {
  }

  lemma NumberedSame(a: nat, s: string, b: nat, t: string)
    requires PaddedNumber(a) + " - " + s + ".wav" == PaddedNumber(b) + " - " + t + ".wav"
    ensures a == b
  {
    var x, y := " - " + s + ".wav", " - " + t + ".wav";
    assert PaddedNumber(a) + " - " + s + ".wav" == PaddedNumber(a) + x;
    assert PaddedNumber(b) + " - " + t + ".wav" == PaddedNumber(b) + y;
    PaddedInjective(a, x, b, y);
  }

  lemma UntitledSame(a: nat, b: nat)
    requires "Track_" + PaddedNumber(a) + ".wav" == "Track_" + PaddedNumber(b) + ".wav"
    ensures a == b
  {
    var x, y := PaddedNumber(a) + ".wav", PaddedNumber(b) + ".wav";
    assert ("Track_" + PaddedNumber(a) + ".wav")[6..] == x;
    assert ("Track_" + PaddedNumber(b) + ".wav")[6..] == y;
    PaddedInjective(a, ".wav", b, ".wav");
  }

  lemma CleanJoin(s: string, t: string)
    requires AllClean(s) && AllClean(t)
    ensures AllClean(s + t)
  {
  }

  lemma NumbersAreClean(n: nat)
    ensures AllClean(PaddedNumber(n))
  {
    var s := PaddedNumber(n);
    forall i | 0 <= i < |s| ensures Clean(s[i]) {
      assert Decimal.IsDigit(s[i]);
    }
  }

  /** Every name is usable: not empty, no path separator, no control character,
      and not one of the two names a folder reserves. */
  lemma NamesAreSafe(cf: ChipFile, i: nat, enc: Encoding)
    requires i < |cf.tracks|
    ensures var name := FileNameOf(cf, i, enc);
            |name| >= 4 && AllClean(name) && name != "." && name != ".."
  {
    var title := Sanitized(TitleOf(cf, i, enc), enc.isSpace);
    SanitizedIsClean(TitleOf(cf, i, enc), enc.isSpace);
    NumbersAreClean(i + 1);
    CleanJoin(title, ".wav");
    CleanJoin("Track_", PaddedNumber(i + 1));
    CleanJoin("Track_" + PaddedNumber(i + 1), ".wav");
    CleanJoin(PaddedNumber(i + 1), " - ");
    CleanJoin(PaddedNumber(i + 1) + " - ", title);
    CleanJoin(PaddedNumber(i + 1) + " - " + title, ".wav");
  }

  // ---- The folder ----------------------------------------------------------

  /** An inode with named children.  Adding under a taken name without overwriting
      fails and changes nothing; an empty name is a fatal error in go-fuse. */
  class Inode<T> {
    var children: map<string, T>

    constructor ()
      ensures children == map[]
    {
      children := map[];
    }

    method AddChild(name: string, child: T) returns (added: bool)
      requires name != ""
      modifies this
      ensures added == (name !in old(children))
      ensures children == if added then old(children)[name := child] else old(children)
    {
      added := name !in children;
      if added {
        children := children[name := child];
      }
    }
  }

  /** ChipDir.OnAdd: no track is dropped, so the folder has one child a track,
      under its own name. */
  method OnAdd(dir: Inode<TrackEntry>, tracks: seq<TrackEntry>)
    requires dir.children == map[]
    requires forall i :: 0 <= i < |tracks| ==> tracks[i].filename != ""
    requires forall i, j :: 0 <= i < j < |tracks| ==> tracks[i].filename != tracks[j].filename
    modifies dir
    ensures |dir.children| == |tracks|
    ensures forall i :: 0 <= i < |tracks| ==>
              tracks[i].filename in dir.children && dir.children[tracks[i].filename] == tracks[i]
  {
    for n := 0 to |tracks|
      invariant Holds(tracks, n, dir.children)
    {
      OneMore(tracks, n, dir.children);
      var added := dir.AddChild(tracks[n].filename, tracks[n]);
    }
  }

  ghost predicate Holds(tracks: seq<TrackEntry>, n: nat, children: map<string, TrackEntry>)
    requires n <= |tracks|
  {
    && |children| == n
    && (forall name :: name in children ==> exists i :: 0 <= i < n && tracks[i].filename == name)
    && forall i :: 0 <= i < n ==> tracks[i].filename in children && children[tracks[i].filename] == tracks[i]
  }

  lemma OneMore(tracks: seq<TrackEntry>, n: nat, children: map<string, TrackEntry>)
    requires n < |tracks| && Holds(tracks, n, children)
    requires forall i :: 0 <= i < n ==> tracks[i].filename != tracks[n].filename
    ensures tracks[n].filename !in children
    ensures Holds(tracks, n + 1, children[tracks[n].filename := tracks[n]])
  {
    var after := children[tracks[n].filename := tracks[n]];
    forall name | name in after ensures exists i :: 0 <= i < n + 1 && tracks[i].filename == name {
      if name in children {
        var i :| 0 <= i < n && tracks[i].filename == name;
      }
    }
  }

  /** From a parsed file to its folder: exactly one child a track. */
  method FillFolder(cf: ChipFile, defaultPlayMs: int, defaultFadeMs: int, enc: Encoding)
    returns (dir: Inode<TrackEntry>)
    requires WellFormed(cf)
    ensures fresh(dir) && |dir.children| == |cf.tracks|
    ensures forall i :: 0 <= i < |cf.tracks| ==>
              var t := EntryOf(cf, i, defaultPlayMs, defaultFadeMs, enc);
              t.filename in dir.children && dir.children[t.filename] == t
  {
    var entries := BuildTrackList(Some(cf), defaultPlayMs, defaultFadeMs, enc);
    forall i | 0 <= i < |cf.tracks| ensures entries.value[i].filename != "" {
      NamesAreSafe(cf, i, enc);
    }
    forall i, j | 0 <= i < j < |cf.tracks| ensures entries.value[i].filename != entries.value[j].filename {
      NamesDistinct(cf, i, j, enc);
    }
    dir := new Inode<TrackEntry>();
    OnAdd(dir, entries.value);
    assert forall i :: 0 <= i < |cf.tracks| ==>
      entries.value[i] == EntryOf(cf, i, defaultPlayMs, defaultFadeMs, enc);
  }

  // ---- NSF and NSFe --------------------------------------------------------

  /** parseNSF, once the header is parsed: TrackCount slots, those without an
      entry of their own left zero. */
  function ChipFileOf(h: N.Header, enc: Encoding): (cf: ChipFile)
    ensures |cf.tracks| == h.trackCount && WellFormed(cf)
  {
    ChipFile(enc.decode(h.title), enc.decode(h.artist),
             seq(h.trackCount, i requires 0 <= i < h.trackCount => TrackAt(h, i, enc)), false)
  }

  function TrackAt(h: N.Header, i: nat, enc: Encoding): ChipTrack {
    if i < |h.tracks|
    then ChipTrack(enc.decode(h.tracks[i].title), h.tracks[i].durationMs, h.tracks[i].fadeMs)
    else ChipTrack("", 0, 0)
  }

  /** The tracks a printed NSFe file is listed with, in whatever order its
      metadata came: one for each playlist position if there is a playlist, or for
      each of the n tracks INFO announces, each with the title, duration and fade
      the file gives that internal track.  Its auth strings name album and artist. */
  lemma ListedTracks(addresses: seq<byte>, n: byte, tail: seq<byte>, xs: seq<R.Item>, enc: Encoding)
    requires |addresses| == 8 && |tail| < TWO_32 - 9 && R.KindsDistinct(xs) && enc.decode([]) == ""
    requires forall i :: 0 <= i < |xs| ==> R.Fits(xs[i], n) && |R.ChunkOf(xs[i]).data| < TWO_32
    ensures var parsed := N.Parse(R.NSFE + R.Print([R.InfoChunk(addresses, n, tail)] + R.Chunks(xs)));
            parsed.Ok? &&
            var cf, sl := ChipFileOf(parsed.value, enc), R.PutAll(R.NO_SLOTS, xs);
            && cf.album == enc.decode(R.StrAt(sl.auth, 0)) && cf.artist == enc.decode(R.StrAt(sl.auth, 1))
            && !cf.singleTrack
            && |cf.tracks| == (if sl.order == [] then n as int else |sl.order|)
            && forall i :: 0 <= i < |cf.tracks| ==>
                 var internal := if sl.order == [] then i else sl.order[i] as int;
                 cf.tracks[i] == ChipTrack(enc.decode(R.StrAt(sl.titles, internal)),
                                           R.IntAt(sl.times, internal), R.IntAt(sl.fades, internal))
  {
    var sl := R.PutAll(R.NO_SLOTS, xs);
    R.MetadataRoundTrip(addresses, n, tail, xs);
    forall i: nat ensures TrackAt(R.Described(n, R.FirstOf(tail), sl.(order := [])), i, enc)
        == ChipTrack(enc.decode(R.StrAt(sl.titles, i)), R.IntAt(sl.times, i), R.IntAt(sl.fades, i)) {}
  }
}
