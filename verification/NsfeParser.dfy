/** internal/formats/nsf/nsf.go: the one-pass NSFe parser.  It walks the file by
    offset and updates a header in place; it is proved equal to NsfeSpec.Parse. */
module NsfeParser {
  import opened Bytes
  import opened Wrappers
  import opened NsfeSpec
  import opened Sequences

  /** The *Header under construction. */
  class Building {
    var title: seq<byte>
    var artist: seq<byte>
    var copyright: seq<byte>
    var trackCount: nat
    var firstTrack: nat
    var tracks: seq<TrackInfo>

    constructor ()
      ensures Value() == START.h
    {
      title, artist, copyright := [], [], [];
      trackCount, firstTrack := 0, 0;
      tracks := [];
    }

    function Value(): Header
      reads this
    {
      Header(title, artist, copyright, trackCount, firstTrack, tracks)
    }

    method EnsureTracks(n: nat)
      modifies this`tracks
      ensures tracks == Grown(old(tracks), n)
    {
      if |tracks| < n {
        var grown := new TrackInfo[n](_ => NO_INFO);
        forall i | 0 <= i < |tracks| {
          grown[i] := tracks[i];
        }
        tracks := grown[..];
      }
    }

    method SetTrack(idx: nat, field: Field, v: int32)
      modifies this`tracks
      ensures var g := Grown(old(tracks), idx + 1);
              tracks == g[idx := WithField(g[idx], field, v)]
    {
      EnsureTracks(idx + 1);
      tracks := tracks[idx := WithField(tracks[idx], field, v)];
    }

    method ApplyTrackInt32s(chunk: seq<byte>, field: Field)
      modifies this`tracks
      ensures tracks == SetInts(old(tracks), field, Int32s(old(Value()), chunk))
    {
      ghost var was, vs, done := tracks, Int32s(Value(), chunk), 0;
      var i := 0;
      while i + 4 <= |chunk|
        invariant i == 4 * done && 0 <= done <= |vs|
        invariant PartlySet(was, tracks, field, vs, done)
        decreases |chunk| - i
      {
        var idx := i / 4;
        if trackCount > 0 && idx >= trackCount {
          break;
        }
        PartlyMore(was, tracks, field, vs, idx);
        SetTrack(idx, field, Int32At(chunk, idx));
        i := i + 4;
        done := done + 1;
      }
      AllSet(was, tracks, field, vs);
    }

    method ApplyTitles(titles: seq<seq<byte>>)
      modifies this`tracks
      ensures tracks == SetTitles(old(tracks), titles)
    {
      for i := 0 to |titles|
        invariant tracks == SetTitles(old(tracks), titles[..i])
      {
        EnsureTracks(i + 1);
        tracks := tracks[i := tracks[i].(title := titles[i])];
      }
      assert titles[..|titles|] == titles;
    }

    method ApplyAuth(strs: seq<seq<byte>>)
      modifies this`title, this`artist, this`copyright
      ensures title == if |strs| > 0 then strs[0] else old(title)
      ensures artist == if |strs| > 1 then strs[1] else old(artist)
      ensures copyright == if |strs| > 2 then strs[2] else old(copyright)
    {
      if |strs| > 0 {
        title := strs[0];
      }
      if |strs| > 1 {
        artist := strs[1];
      }
      if |strs| > 2 {
        copyright := strs[2];
      }
    }

    method RemapPlaylist(plst: seq<byte>)
      requires |plst| > 0
      modifies this`tracks, this`trackCount
      ensures tracks == Remap(old(tracks), plst) && trackCount == |plst|
    {
      var internalTracks := tracks;
      var remapped := new TrackInfo[|plst|](_ => NO_INFO);
      for i := 0 to |plst|
        invariant forall j :: 0 <= j < i ==> remapped[j] == Slot(internalTracks, plst[j])
        invariant forall j :: i <= j < |plst| ==> remapped[j] == NO_INFO
      {
        if plst[i] < |internalTracks| {
          remapped[i] := internalTracks[plst[i]];
        }
      }
      tracks := remapped[..];
      assert tracks == Remap(internalTracks, plst);
      trackCount := |plst|;
    }
  }

  /** The switch of the chunk loop: the new values of hasINFO and plst, or the
      error that ends the parse. */
  method Switch(h: Building, id: FourCC, chunk: seq<byte>, hasInfo: bool, plst: seq<byte>)
    returns (err: Option<ParseError>, hasInfo': bool, plst': seq<byte>)
    modifies h
    ensures Handle(Parsing(old(h.Value()), hasInfo, plst), Chunk(id, chunk))
            == if err.Some? then Err(err.value) else Ok(Parsing(h.Value(), hasInfo', plst'))
  {
    err, hasInfo', plst' := None, hasInfo, plst;
    if id == INFO {
      if |chunk| < 9 {
        err := Some(InfoTooShort(|chunk|));
        return;
      }
      h.trackCount := chunk[8];
      if |chunk| >= 10 {
        h.firstTrack := chunk[9] as int + 1; // 0-indexed in the file
      } else {
        h.firstTrack := 1;
      }
      hasInfo' := true;
    } else if id == AUTH {
      var strs := SplitNullTerminated(chunk, 4);
      h.ApplyAuth(strs);
    } else if id == TLBL {
      var titles := SplitNullTerminated(chunk, h.trackCount);
      h.ApplyTitles(titles);
    } else if id == TIME {
      h.ApplyTrackInt32s(chunk, DurationMs);
    } else if id == FADE {
      h.ApplyTrackInt32s(chunk, FadeMs);
    } else if id == PLST {
      plst' := chunk;
    } else if id !in IGNORED && Upper(id.a) {
      err := Some(UnknownMandatory(id));
    }
  }

  /** The first n values have been written. */
  ghost predicate PartlySet(was: seq<TrackInfo>, now: seq<TrackInfo>, field: Field, vs: seq<int32>, n: nat)
    requires n <= |vs|
  {
    && |now| == (if |was| < n then n else |was|)
    && forall j :: 0 <= j < |now| ==>
         now[j] == if j < n then WithField(Slot(was, j), field, vs[j]) else was[j]
  }

  lemma PartlyMore(was: seq<TrackInfo>, now: seq<TrackInfo>, field: Field, vs: seq<int32>, n: nat)
    requires n < |vs| && PartlySet(was, now, field, vs, n)
    ensures var g := Grown(now, n + 1);
            PartlySet(was, g[n := WithField(g[n], field, vs[n])], field, vs, n + 1)
  {
  }

  lemma AllSet(was: seq<TrackInfo>, now: seq<TrackInfo>, field: Field, vs: seq<int32>)
    requires PartlySet(was, now, field, vs, |vs|)
    ensures now == SetInts(was, field, vs)
  {
  }

  method SplitNullTerminated(data: seq<byte>, max: nat) returns (result: seq<seq<byte>>)
    ensures result == SplitNul(data, max)
  {
    result := [];
    var rest := data;
    while |rest| > 0 && |result| < max
      invariant |result| <= max
      invariant result + SplitNul(rest, max - |result|) == SplitNul(data, max)
      decreases |rest|
    {
      var i := IndexNul(rest);
      if i == |rest| {
        result := result + [rest];
        break;
      }
      Regroup(result, [rest[..i]], SplitNul(rest[i + 1..], max - |result| - 1));
      result := result + [rest[..i]];
      rest := rest[i + 1..];
    }
  }

  /** One turn of the loop, by offset. */
  lemma StepAt(p: Parsing, data: seq<byte>, pos: nat, size: nat, id: FourCC)
    requires pos + 8 <= |data| && size == FromLE32(data[pos..pos + 4]) && id == IdOf(data[pos + 4..pos + 8])
    ensures ParseRest(p, data[pos..])
            == if id == NEND then Finish(p)
               else if pos + 8 + size > |data| then Err(Truncated(id))
               else
                 match Handle(p, Chunk(id, data[pos + 8..pos + 8 + size]))
                 case Err(e) => Err(e)
                 case Ok(next) => ParseRest(next, data[pos + 8 + size..])
  {
    var rest := data[pos..];
    assert rest[..4] == data[pos..pos + 4] && rest[4..8] == data[pos + 4..pos + 8];
    RestStep(p, rest);
    if pos + 8 + size <= |data| {
      assert rest[8..8 + size] == data[pos + 8..pos + 8 + size];
      assert rest[8 + size..] == data[pos + 8 + size..];
    }
  }

  /** The switch, seen from the loop: it leaves the parse of the rest of the file
      what it was, or ends it with an error. */
  method Consume(h: Building, data: seq<byte>, pos: nat, size: nat, id: FourCC, hasInfo: bool, plst: seq<byte>)
    returns (err: Option<ParseError>, hasInfo': bool, plst': seq<byte>)
    requires pos + 8 <= |data| && size == FromLE32(data[pos..pos + 4]) && id == IdOf(data[pos + 4..pos + 8])
    requires id != NEND && pos + 8 + size <= |data|
    modifies h
    ensures ParseRest(Parsing(old(h.Value()), hasInfo, plst), data[pos..])
            == if err.Some? then Err(err.value)
               else ParseRest(Parsing(h.Value(), hasInfo', plst'), data[pos + 8 + size..])
  {
    StepAt(Parsing(h.Value(), hasInfo, plst), data, pos, size, id);
    var chunk := data[pos + 8..pos + 8 + size];
    err, hasInfo', plst' := Switch(h, id, chunk, hasInfo, plst);
  }

  /** What follows the loop: INFO must have been seen, and a playlist reorders
      the tracks. */
  method Conclude(h: Building, hasInfo: bool, plst: seq<byte>) returns (r: Result<Header, ParseError>)
    modifies h
    ensures r == Finish(Parsing(old(h.Value()), hasInfo, plst))
  {
    if !hasInfo {
      return Err(MissingInfo);
    }
    if |plst| > 0 {
      h.RemapPlaylist(plst);
    }
    r := Ok(h.Value());
  }

  method ConcludeAt(h: Building, data: seq<byte>, pos: nat, hasInfo: bool, plst: seq<byte>)
    returns (r: Result<Header, ParseError>)
    requires pos <= |data|
    requires pos + 8 > |data| || IdOf(data[pos + 4..pos + 8]) == NEND
    modifies h
    ensures r == ParseRest(Parsing(old(h.Value()), hasInfo, plst), data[pos..])
  {
    if pos + 8 <= |data| {
      StepAt(Parsing(h.Value(), hasInfo, plst), data, pos, FromLE32(data[pos..pos + 4]), NEND);
    } else {
      RestEnd(Parsing(h.Value(), hasInfo, plst), data[pos..]);
    }
    r := Conclude(h, hasInfo, plst);
  }

  lemma TruncatedAt(p: Parsing, data: seq<byte>, pos: nat, size: nat, id: FourCC)
    requires pos + 8 <= |data| && size == FromLE32(data[pos..pos + 4]) && id == IdOf(data[pos + 4..pos + 8])
    requires id != NEND && pos + 8 + size > |data|
    ensures ParseRest(p, data[pos..]) == Err(Truncated(id))
  {
    StepAt(p, data, pos, size, id);
  }

  method ParseNsfe(data: seq<byte>) returns (r: Result<Header, ParseError>)
    requires |data| >= 4
    ensures r == Parse(data)
  {
    ghost var parsed := Parse(data);
    var h := new Building();
    var hasInfo := false;
    var plst: seq<byte> := [];
    var pos := 4; // chunks start behind the magic
    while pos + 8 <= |data|
      invariant 4 <= pos <= |data|
      invariant ParseRest(Parsing(h.Value(), hasInfo, plst), data[pos..]) == parsed
      decreases |data| - pos
    {
      var size := FromLE32(data[pos..pos + 4]);
      var id := IdOf(data[pos + 4..pos + 8]);
      if id == NEND {
        break;
      }
      if pos + 8 + size > |data| {
        TruncatedAt(Parsing(h.Value(), hasInfo, plst), data, pos, size, id);
        return Err(Truncated(id));
      }
      var err;
      err, hasInfo, plst := Consume(h, data, pos, size, id, hasInfo, plst);
      if err.Some? {
        return Err(err.value);
      }
      pos := pos + 8 + size;
    }
    r := ConcludeAt(h, data, pos, hasInfo, plst);
  }
  method ParseFile(data: seq<byte>, plain: seq<byte> -> Result<Header, ParseError>)
    returns (r: Result<Header, ParseError>)
    ensures r == NsfeSpec.ParseFile(data, plain)
  {
    if |data| < 4 {
      return Err(InvalidMagic);
    }
    if data[..4] == MAGIC {
      r := ParseNsfe(data);
    } else {
      r := plain(data);
    }
  }
}
