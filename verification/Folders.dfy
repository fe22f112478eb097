/** One folder of the mount: Root.populate and addChipDir of internal/vfs/vfs.go.
    Real entries come first and keep their names; each chiptune then gets a
    virtual folder under its stem, or under a fallback name. */
module Folders {
  import opened Bytes
  import opened Wrappers
  import opened Text
  import opened Render
  import opened TrackNames
  import opened AlbumArtist

  /** A regular file may be a recognized chiptune; isSpc is its extension's test. */
  datatype Chip = Chip(isSpc: bool, tracks: seq<TrackEntry>)

  datatype Kind = Directory | Regular(chip: Option<Chip>) | Special

  datatype DirEntry = DirEntry(name: string, kind: Kind)

  datatype Node = RealDir | RealFile | ChipFolder(source: string, tracks: seq<TrackEntry>)

  /** A chiptune waiting for its folder. */
  datatype Pending = Pending(name: string, isSpc: bool, tracks: seq<TrackEntry>)

  /** filepath.Ext: the last dot of the name and what follows; empty without one. */
  function Ext(name: string): (e: string)
    ensures |e| <= |name| && e == name[|name| - |e|..]
  {
    if name == [] || name[|name| - 1] == '/' then ""
    else if name[|name| - 1] == '.' then "."
    else
      var e := Ext(name[..|name| - 1]);
      if e == "" then "" else e + [name[|name| - 1]]
  }

  function Stem(name: string): string {
    name[..|name| - |Ext(name)|]
  }

  function Fallback(name: string, sp: Spaces): string
    requires Ext(name) != ""
  {
    TrimSpace(Stem(name) + " (" + Ext(name)[1..] + ")", sp)
  }

  /** A listing as the operating system gives it: distinct names, and an extension
      on every recognized chiptune; single-track files have their track. */
  ghost predicate Listing(es: seq<DirEntry>) {
    && (forall i, j :: 0 <= i < j < |es| ==> es[i].name != es[j].name)
    && forall i :: 0 <= i < |es| ==>
         && es[i].name != ""
         && (es[i].kind.Regular? && es[i].kind.chip.Some? ==>
               Ext(es[i].name) != "" && (es[i].kind.chip.value.isSpc ==> es[i].kind.chip.value.tracks != []))
  }

  predicate IsChip(e: DirEntry) {
    e.kind.Regular? && e.kind.chip.Some?
  }

  /** The extension starts at the last dot after the last slash. */
  lemma {:induction false} ExtIsLastDot(name: string)
    ensures var e := Ext(name);
            if e == ""
            then forall i :: 0 <= i < |name| && name[i] == '.' ==> exists j :: i < j < |name| && name[j] == '/'
            else e[0] == '.' && forall i :: 1 <= i < |e| ==> e[i] != '.' && e[i] != '/'
  {
    if name != [] && name[|name| - 1] != '/' && name[|name| - 1] != '.' {
      var init := name[..|name| - 1];
      ExtIsLastDot(init);
      if Ext(init) == "" {
        forall i | 0 <= i < |name| && name[i] == '.' ensures exists j :: i < j < |name| && name[j] == '/' {
          assert init[i] == '.';
          var j :| i < j < |init| && init[j] == '/';
          assert name[j] == '/';
        }
      }
    }
  }

  /** The stem is the name without its extension. */
  lemma StemMeaning(name: string)
    ensures Stem(name) + Ext(name) == name
  {
  }

  /** The fallback of "stem.ext" is "stem (ext)"; without a stem it is "(ext)". */
  lemma FallbackMeaning(name: string, sp: Spaces, ext: string)
    requires Ext(name) == "." + ext && GraphicIsNotSpace(sp) && sp(' ')
    ensures Stem(name) != "" && !sp(Stem(name)[0]) ==> Fallback(name, sp) == Stem(name) + " (" + ext + ")"
    ensures Stem(name) == "" ==> Fallback(name, sp) == "(" + ext + ")"
  {
    assert Ext(name)[1..] == ext;
    Parenthesized(Stem(name), ext, sp);
  }

  lemma Parenthesized(stem: string, ext: string, sp: Spaces)
    requires GraphicIsNotSpace(sp) && sp(' ')
    ensures stem != "" && !sp(stem[0]) ==>
              TrimSpace(stem + " (" + ext + ")", sp) == stem + " (" + ext + ")"
    ensures stem == "" ==> TrimSpace(stem + " (" + ext + ")", sp) == "(" + ext + ")"
  {
    var s, t := stem + " (" + ext + ")", "(" + ext + ")";
    assert s[|s| - 1] == ')' && t[0] == '(' && t[|t| - 1] == ')';
    if stem == "" {
      assert s == " " + t;
      TrimOneSpace(t, sp);
    } else if !sp(stem[0]) {
      assert s[0] == stem[0];
      TrimOfTrimmed(s, sp);
    }
  }

  lemma TrimOneSpace(t: string, sp: Spaces)
    requires sp(' ') && t != "" && !sp(t[0]) && !sp(t[|t| - 1])
    ensures TrimSpace(" " + t, sp) == t
  {
    assert (" " + t)[1..] == t;
    TrimOfTrimmed(t, sp);
  }

  // ---- What a folder must hold ---------------------------------------------

  function RealChildren(es: seq<DirEntry>): map<string, Node> {
    if es == [] then map[]
    else
      var e := es[|es| - 1];
      var before := RealChildren(es[..|es| - 1]);
      match e.kind
      case Directory => before[e.name := RealDir]
      case Regular(_) => before[e.name := RealFile]
      case Special => before
  }

  function PendingOf(es: seq<DirEntry>): seq<Pending> {
    if es == [] then []
    else
      var e := es[|es| - 1];
      PendingOf(es[..|es| - 1]) +
      (if IsChip(e) then [Pending(e.name, e.kind.chip.value.isSpc, e.kind.chip.value.tracks)] else [])
  }

  function SpcArtists(ps: seq<Pending>): seq<seq<byte>> {
    if ps == [] then []
    else
      var p := ps[|ps| - 1];
      SpcArtists(ps[..|ps| - 1]) +
      (if p.isSpc && p.tracks != [] then [p.tracks[0].opts.metadata.artist] else [])
  }

  function WithAlbumArtist(t: TrackEntry, artist: seq<byte>): TrackEntry {
    t.(opts := t.opts.(metadata := t.opts.metadata.(albumArtist := artist)))
  }

  function FolderOf(p: Pending, artist: seq<byte>): Node {
    ChipFolder(p.name,
               if p.isSpc then seq(|p.tracks|, i requires 0 <= i < |p.tracks| => WithAlbumArtist(p.tracks[i], artist))
               else p.tracks)
  }

  /** A folder to be placed, with the two names it may get. */
  datatype Spot = Spot(stem: string, fallback: string, folder: Node)

  function SpotOf(p: Pending, artist: seq<byte>, sp: Spaces): Spot
    requires Ext(p.name) != ""
  {
    Spot(Stem(p.name), Fallback(p.name, sp), FolderOf(p, artist))
  }

  ghost predicate HaveExt(ps: seq<Pending>) {
    forall i :: 0 <= i < |ps| ==> Ext(ps[i].name) != ""
  }

  function SpotsOf(ps: seq<Pending>, artist: seq<byte>, sp: Spaces): (ss: seq<Spot>)
    requires HaveExt(ps)
    ensures |ss| == |ps|
    ensures forall i :: 0 <= i < |ss| ==> ss[i] == SpotOf(ps[i], artist, sp)
  {
    seq(|ps|, i requires 0 <= i < |ps| => SpotOf(ps[i], artist, sp))
  }

  /** addChipDir on a map of children. */
  function Place(m: map<string, Node>, s: Spot): map<string, Node> {
    if s.stem != "" && s.stem !in m then m[s.stem := s.folder]
    else if s.fallback !in m then m[s.fallback := s.folder]
    else m
  }

  function PlaceAll(m: map<string, Node>, ss: seq<Spot>): map<string, Node> {
    if ss == [] then m else Place(PlaceAll(m, ss[..|ss| - 1]), ss[|ss| - 1])
  }

  /** Every recognized chiptune of the listing is pending, under its own name. */
  lemma {:induction false} ChipsArePending(es: seq<DirEntry>, i: nat) returns (n: nat)
    requires i < |es| && IsChip(es[i])
    ensures n == |PendingOf(es[..i])|
    ensures n < |PendingOf(es)|
    ensures PendingOf(es)[n] == Pending(es[i].name, es[i].kind.chip.value.isSpc, es[i].kind.chip.value.tracks)
  {
    if i == |es| - 1 {
      n := |PendingOf(es)| - 1;
    } else {
      n := ChipsArePending(es[..|es| - 1], i);
      assert es[..|es| - 1][..i] == es[..i];
    }
  }

  /** Chiptunes wait in the order of the listing. */
  lemma {:induction false} PendingInOrder(es: seq<DirEntry>, i: nat, j: nat)
    requires i < j <= |es| && IsChip(es[i])
    ensures |PendingOf(es[..i])| < |PendingOf(es[..j])|
    decreases j
  {
    assert es[..j][..j - 1] == es[..j - 1];
    if i < j - 1 {
      PendingInOrder(es, i, j - 1);
    }
  }

  predicate IsSpc(e: DirEntry) {
    IsChip(e) && e.kind.chip.value.isSpc && e.kind.chip.value.tracks != []
  }

  function FirstArtist(e: DirEntry): seq<byte>
    requires IsSpc(e)
  {
    e.kind.chip.value.tracks[0].opts.metadata.artist
  }

  /** Positions at, in order and without repetition, are those of the SPC files, and
      artists are their first tracks' artists. */
  ghost predicate ArtistsAt(es: seq<DirEntry>, at: seq<nat>, artists: seq<seq<byte>>) {
    && |at| == |artists|
    && (forall j :: 0 <= j < |at| ==> at[j] < |es| && IsSpc(es[at[j]]) && artists[j] == FirstArtist(es[at[j]]))
    && (forall i, j :: 0 <= i < j < |at| ==> at[i] < at[j])
    && (forall i :: 0 <= i < |es| && IsSpc(es[i]) ==> i in at)
  }

  /** The artists collected for the album artist: the first track's artist of every
      SPC file of the listing, each once, in order. */
  lemma {:induction false} ArtistsAreListed(es: seq<DirEntry>) returns (at: seq<nat>)
    ensures ArtistsAt(es, at, SpcArtists(PendingOf(es)))
  {
    if es == [] {
      at := [];
    } else {
      var init := es[..|es| - 1];
      var before := ArtistsAreListed(init);
      OneArtistMore(es);
      at := OneEntryMore(es, before, SpcArtists(PendingOf(init)), SpcArtists(PendingOf(es)));
    }
  }

  lemma OneEntryMore(es: seq<DirEntry>, at: seq<nat>, artists: seq<seq<byte>>, after: seq<seq<byte>>)
    returns (next: seq<nat>)
    requires es != [] && ArtistsAt(es[..|es| - 1], at, artists)
    requires after == artists + (if IsSpc(es[|es| - 1]) then [FirstArtist(es[|es| - 1])] else [])
    ensures ArtistsAt(es, next, after)
  {
    var init, e := es[..|es| - 1], es[|es| - 1];
    assert forall i :: 0 <= i < |init| ==> es[i] == init[i];
    next := at;
    if IsSpc(e) {
      next := at + [|init|];
      assert next[|at|] == |init|;
      forall i | 0 <= i < |es| && IsSpc(es[i]) ensures i in next {
        if i < |init| {
          assert i in at;
        }
      }
    }
  }

  lemma OneArtistMore(es: seq<DirEntry>)
    requires es != []
    ensures var e := es[|es| - 1];
            SpcArtists(PendingOf(es))
            == SpcArtists(PendingOf(es[..|es| - 1])) +
               (if IsSpc(e) then [FirstArtist(e)] else [])
  {
    var init := es[..|es| - 1];
    if IsChip(es[|es| - 1]) {
      assert PendingOf(es)[..|PendingOf(es)| - 1] == PendingOf(init);
    } else {
      assert PendingOf(es) == PendingOf(init);
    }
  }

  /** A folder lists its chiptune's tracks; only an SPC file's tracks change, and
      only in their album artist. */
  lemma FolderMeaning(p: Pending, artist: seq<byte>)
    ensures FolderOf(p, artist).source == p.name && |FolderOf(p, artist).tracks| == |p.tracks|
    ensures forall i :: 0 <= i < |p.tracks| ==>
              var was, now := p.tracks[i], FolderOf(p, artist).tracks[i];
              && now.filename == was.filename && now.trackIdx == was.trackIdx
              && now.playMs == was.playMs && now.fadeMs == was.fadeMs
              && now.opts.sampleRate == was.opts.sampleRate && now.opts.channels == was.opts.channels
              && now.opts.metadata.title == was.opts.metadata.title
              && now.opts.metadata.artist == was.opts.metadata.artist
              && now.opts.metadata.album == was.opts.metadata.album
              && now.opts.metadata.track == was.opts.metadata.track
              && now.opts.metadata.albumArtist == if p.isSpc then artist else was.opts.metadata.albumArtist
  {
  }

  lemma {:induction false} PendingIsListed(es: seq<DirEntry>, n: nat) returns (i: nat)
    requires n < |PendingOf(es)|
    ensures i < |es| && IsChip(es[i]) && es[i].name == PendingOf(es)[n].name
  {
    var init := es[..|es| - 1];
    if n < |PendingOf(init)| {
      i := PendingIsListed(init, n);
    } else {
      i := |es| - 1;
    }
  }

  lemma PendingHaveExt(es: seq<DirEntry>)
    requires Listing(es)
    ensures HaveExt(PendingOf(es))
  {
    forall n | 0 <= n < |PendingOf(es)| ensures Ext(PendingOf(es)[n].name) != "" {
      var i := PendingIsListed(es, n);
    }
  }

  ghost predicate DistinctNames(ps: seq<Pending>) {
    forall i, j :: 0 <= i < j < |ps| ==> ps[i].name != ps[j].name
  }

  lemma {:induction false} PendingDistinct(es: seq<DirEntry>)
    requires Listing(es)
    ensures DistinctNames(PendingOf(es))
  {
    if es != [] {
      var init := es[..|es| - 1];
      PendingDistinct(init);
      forall n | 0 <= n < |PendingOf(init)| ensures PendingOf(init)[n].name != es[|es| - 1].name {
        var i := PendingIsListed(init, n);
      }
    }
  }

  // ---- The methods ---------------------------------------------------------

  lemma FallbackNotEmpty(name: string, sp: Spaces)
    requires Ext(name) != "" && GraphicIsNotSpace(sp)
    ensures Fallback(name, sp) != ""
  {
    var s := Stem(name) + " (" + Ext(name)[1..] + ")";
    assert s[|s| - 1] == ')';
    TrimKeepsVisible(s, sp, |s| - 1);
  }

  method AddChipDir(parent: Inode<Node>, p: Pending, artist: seq<byte>, sp: Spaces)
    requires Ext(p.name) != "" && GraphicIsNotSpace(sp)
    modifies parent
    ensures parent.children == Place(old(parent.children), SpotOf(p, artist, sp))
  {
    var ext := Ext(p.name);
    var stem := Stem(p.name);
    var fallback := TrimSpace(stem + " (" + ext[1..] + ")", sp);
    FallbackNotEmpty(p.name, sp);
    if stem != "" {
      var added := parent.AddChild(stem, FolderOf(p, artist));
      if added {
        return;
      }
    }
    var added := parent.AddChild(fallback, FolderOf(p, artist));
  }

  /** The listing loop: real entries become children, chiptunes are remembered. */
  method ListReal(parent: Inode<Node>, es: seq<DirEntry>) returns (pending: seq<Pending>, spcArtists: seq<seq<byte>>)
    requires Listing(es) && parent.children == map[]
    modifies parent
    ensures parent.children == RealChildren(es)
    ensures pending == PendingOf(es) && spcArtists == SpcArtists(pending)
  {
    pending, spcArtists := [], [];
    for i := 0 to |es|
      invariant parent.children == RealChildren(es[..i])
      invariant forall name :: name in parent.children ==> exists j :: 0 <= j < i && es[j].name == name
      invariant pending == PendingOf(es[..i]) && spcArtists == SpcArtists(pending)
    {
      var e := es[i];
      assert es[..i + 1][..i] == es[..i] && es[..i + 1][i] == e;
      match e.kind
      case Directory =>
        var added := parent.AddChild(e.name, RealDir);
      case Special =>
      case Regular(chip) =>
        var added := parent.AddChild(e.name, RealFile);
        if chip.Some? {
          var p := Pending(e.name, chip.value.isSpc, chip.value.tracks);
          assert (pending + [p])[..|pending|] == pending;
          if chip.value.isSpc {
            spcArtists := spcArtists + [chip.value.tracks[0].opts.metadata.artist];
          }
          pending := pending + [p];
        }
    }
    assert es[..|es|] == es;
  }

  /** populate: real entries, then the chiptunes' folders, SPC tracks with the
      folder's most common artist as album artist. */
  method Populate(parent: Inode<Node>, es: seq<DirEntry>, sp: Spaces) returns (ghost artist: seq<byte>)
    requires Listing(es) && parent.children == map[] && GraphicIsNotSpace(sp)
    modifies parent
    ensures IsMostCommon(SpcArtists(PendingOf(es)), artist)
    ensures HaveExt(PendingOf(es))
    ensures parent.children == PlaceAll(RealChildren(es), SpotsOf(PendingOf(es), artist, sp))
  {
    var pending, spcArtists := ListReal(parent, es);
    PendingHaveExt(es);
    var albumArtist := MostCommon(spcArtists);
    artist := albumArtist;
    AddPending(parent, pending, albumArtist, sp);
  }

  /** The second loop of populate. */
  method AddPending(parent: Inode<Node>, pending: seq<Pending>, albumArtist: seq<byte>, sp: Spaces)
    requires HaveExt(pending) && GraphicIsNotSpace(sp)
    modifies parent
    ensures parent.children == PlaceAll(old(parent.children), SpotsOf(pending, albumArtist, sp))
  {
    ghost var ss := SpotsOf(pending, albumArtist, sp);
    for i := 0 to |pending|
      invariant parent.children == PlaceAll(old(parent.children), ss[..i])
    {
      assert ss[..i + 1][..i] == ss[..i];
      AddChipDir(parent, pending[i], albumArtist, sp);
    }
    assert ss[..|pending|] == ss;
  }

  // ---- Nothing real is lost ------------------------------------------------

  /** Every directory and regular file of the listing is a child under its name. */
  lemma {:induction false} RealEntriesListed(es: seq<DirEntry>, i: nat)
    requires Listing(es) && i < |es| && !es[i].kind.Special?
    ensures es[i].name in RealChildren(es)
    ensures RealChildren(es)[es[i].name] == if es[i].kind.Directory? then RealDir else RealFile
  {
    if i < |es| - 1 {
      RealEntriesListed(es[..|es| - 1], i);
    }
  }

  /** And only such: what is neither a directory nor a regular file is not shown. */
  lemma {:induction false} RealChildrenListed(es: seq<DirEntry>, name: string) returns (i: nat)
    requires name in RealChildren(es)
    ensures i < |es| && es[i].name == name && !es[i].kind.Special?
  {
    if es[|es| - 1].name == name && !es[|es| - 1].kind.Special? {
      i := |es| - 1;
    } else {
      i := RealChildrenListed(es[..|es| - 1], name);
    }
  }

  lemma {:induction false} RealChildrenAreReal(es: seq<DirEntry>)
    ensures forall name :: name in RealChildren(es) ==> !RealChildren(es)[name].ChipFolder?
  {
    if es != [] {
      RealChildrenAreReal(es[..|es| - 1]);
    }
  }

  lemma PlaceKeeps(m: map<string, Node>, s: Spot)
    ensures forall name :: name in m ==> name in Place(m, s) && Place(m, s)[name] == m[name]
  {
  }

  /** Placing folders never takes a name away from what is there. */
  lemma {:induction false} PlacingKeeps(m: map<string, Node>, ss: seq<Spot>, n: nat)
    requires n <= |ss|
    ensures forall name :: name in PlaceAll(m, ss[..n]) ==>
              name in PlaceAll(m, ss) && PlaceAll(m, ss)[name] == PlaceAll(m, ss[..n])[name]
  {
    if n == |ss| {
      assert ss[..n] == ss;
    } else {
      var init := ss[..|ss| - 1];
      assert init[..n] == ss[..n];
      PlacingKeeps(m, init, n);
      PlaceKeeps(PlaceAll(m, init), ss[|ss| - 1]);
    }
  }

  /** After populating, every directory and regular file still has its own name,
      whatever chiptune folders were added. */
  lemma RealEntriesKeepTheirNames(es: seq<DirEntry>, i: nat, artist: seq<byte>, sp: Spaces)
    requires Listing(es) && i < |es| && !es[i].kind.Special?
    ensures HaveExt(PendingOf(es))
    ensures var all := PlaceAll(RealChildren(es), SpotsOf(PendingOf(es), artist, sp));
            && es[i].name in all
            && all[es[i].name] == if es[i].kind.Directory? then RealDir else RealFile
  {
    PendingHaveExt(es);
    RealEntriesListed(es, i);
    RealNamesKept(RealChildren(es), SpotsOf(PendingOf(es), artist, sp));
  }

  lemma RealNamesKept(m: map<string, Node>, ss: seq<Spot>)
    ensures forall name :: name in m ==> name in PlaceAll(m, ss) && PlaceAll(m, ss)[name] == m[name]
  {
    PlacingKeeps(m, ss, 0);
    assert ss[..0] == [];
  }

  // ---- Where each chiptune ends up -----------------------------------------

  /** In the finished folder, name is folder j, which had a right to it. */
  ghost predicate IsFolderAt(m: map<string, Node>, ss: seq<Spot>, j: nat, name: string)
    requires j < |ss|
  {
    && name !in m && name in PlaceAll(m, ss) && PlaceAll(m, ss)[name] == ss[j].folder
    && (name == ss[j].stem || name == ss[j].fallback)
  }

  /** Who holds a name before folder i is placed: a real entry, or an earlier
      chiptune under its stem or its fallback. */
  ghost predicate HeldBefore(m: map<string, Node>, ss: seq<Spot>, i: nat, name: string)
    requires i <= |ss|
  {
    name in m || exists j :: 0 <= j < i && IsFolderAt(m, ss, j, name)
  }

  lemma LandsAt(m: map<string, Node>, ss: seq<Spot>, i: nat, name: string)
    requires i < |ss| && name !in PlaceAll(m, ss[..i])
    requires Place(PlaceAll(m, ss[..i]), ss[i]) == PlaceAll(m, ss[..i])[name := ss[i].folder]
    requires name == ss[i].stem || name == ss[i].fallback
    ensures IsFolderAt(m, ss, i, name)
  {
    assert ss[..i + 1][..i] == ss[..i];
    PlacingKeeps(m, ss, i + 1);
    RealNamesKept(m, ss[..i]);
  }

  /** Every name of the folder belongs to a real entry or to a chiptune. */
  lemma {:induction false} NamesHeld(m: map<string, Node>, ss: seq<Spot>, i: nat, name: string)
    requires i <= |ss| && name in PlaceAll(m, ss[..i])
    ensures HeldBefore(m, ss, i, name)
  {
    if i > 0 && name !in m {
      assert ss[..i][..i - 1] == ss[..i - 1];
      if name in PlaceAll(m, ss[..i - 1]) {
        NamesHeld(m, ss, i - 1, name);
      } else {
        LandsAt(m, ss, i - 1, name);
      }
    }
  }

  ghost predicate DistinctFolders(ss: seq<Spot>) {
    forall i, j :: 0 <= i < j < |ss| ==> ss[i].folder != ss[j].folder
  }

  /** A folder is there under its stem, or under its fallback, or missing; and it
      misses a name only if that name is empty or was already held by a real entry
      or an earlier chiptune. */
  lemma FolderPlaced(m: map<string, Node>, ss: seq<Spot>, i: nat)
    requires DistinctFolders(ss) && i < |ss|
    ensures var stemTaken := ss[i].stem == "" || HeldBefore(m, ss, i, ss[i].stem);
            || (!stemTaken && IsFolderAt(m, ss, i, ss[i].stem))
            || (stemTaken && IsFolderAt(m, ss, i, ss[i].fallback))
            || (stemTaken && HeldBefore(m, ss, i, ss[i].fallback))
  {
    var stem, fallback := ss[i].stem, ss[i].fallback;
    var before := PlaceAll(m, ss[..i]);
    if stem != "" && stem !in before {
      LandsAt(m, ss, i, stem);
      RealNamesKept(m, ss[..i]);
    } else {
      if stem != "" {
        NamesHeld(m, ss, i, stem);
      }
      if fallback !in before {
        LandsAt(m, ss, i, fallback);
      } else {
        NamesHeld(m, ss, i, fallback);
      }
    }
  }

  lemma SpotsDistinct(ps: seq<Pending>, artist: seq<byte>, sp: Spaces)
    requires HaveExt(ps) && DistinctNames(ps)
    ensures DistinctFolders(SpotsOf(ps, artist, sp))
  {
    var ss := SpotsOf(ps, artist, sp);
    forall i, j | 0 <= i < j < |ss| ensures ss[i].folder != ss[j].folder {
      assert ss[i].folder.source == ps[i].name && ss[j].folder.source == ps[j].name;
    }
  }

  /** For every listing: each recognized chiptune has its folder under its stem or
      its fallback, or both names were held by real entries or earlier chiptunes. */
  lemma ChiptunePlaced(es: seq<DirEntry>, i: nat, artist: seq<byte>, sp: Spaces) returns (n: nat)
    requires Listing(es) && i < |es| && IsChip(es[i])
    ensures HaveExt(PendingOf(es))
    ensures var m, ss := RealChildren(es), SpotsOf(PendingOf(es), artist, sp);
            && n == |PendingOf(es[..i])| && n < |ss|
            && (var chip := es[i].kind.chip.value;
                ss[n].folder == FolderOf(Pending(es[i].name, chip.isSpc, chip.tracks), artist))
            && var stem, fallback := Stem(es[i].name), Fallback(es[i].name, sp);
            var stemTaken := stem == "" || HeldBefore(m, ss, n, stem);
            || (!stemTaken && IsFolderAt(m, ss, n, stem))
            || (stemTaken && IsFolderAt(m, ss, n, fallback))
            || (stemTaken && HeldBefore(m, ss, n, fallback))
  {
    PendingHaveExt(es);
    PendingDistinct(es);
    n := ChipsArePending(es, i);
    SpotsDistinct(PendingOf(es), artist, sp);
    FolderPlaced(RealChildren(es), SpotsOf(PendingOf(es), artist, sp), n);
  }

  /** One placement touches one name. */
  lemma PlaceTouches(m: map<string, Node>, s: Spot) returns (at: string)
    ensures forall name :: name in Place(m, s) && name != at ==> name in m && Place(m, s)[name] == m[name]
    ensures at in Place(m, s) ==> Place(m, s)[at] == s.folder || (at in m && Place(m, s)[at] == m[at])
  {
    at := if s.stem != "" && s.stem !in m then s.stem else s.fallback;
  }

  lemma {:induction false} NotPlacedYet(m: map<string, Node>, ss: seq<Spot>, folder: Node)
    requires forall i :: 0 <= i < |ss| ==> ss[i].folder != folder
    requires forall name :: name in m ==> m[name] != folder
    ensures forall name :: name in PlaceAll(m, ss) ==> PlaceAll(m, ss)[name] != folder
  {
    if ss != [] {
      NotPlacedYet(m, ss[..|ss| - 1], folder);
      var at := PlaceTouches(PlaceAll(m, ss[..|ss| - 1]), ss[|ss| - 1]);
    }
  }

  /** No chiptune has two folders. */
  lemma {:induction false} OneFolderEach(m: map<string, Node>, ss: seq<Spot>, i: nat, x: string, y: string)
    requires DistinctFolders(ss) && i < |ss|
    requires forall name :: name in m ==> m[name] != ss[i].folder
    requires x in PlaceAll(m, ss) && PlaceAll(m, ss)[x] == ss[i].folder
    requires y in PlaceAll(m, ss) && PlaceAll(m, ss)[y] == ss[i].folder
    ensures x == y
  {
    var init, last := ss[..|ss| - 1], ss[|ss| - 1];
    var at := PlaceTouches(PlaceAll(m, init), last);
    if i < |ss| - 1 {
      assert init[i] == ss[i] && ss[i].folder != last.folder;
      OneFolderEach(m, init, i, x, y);
    } else {
      NotPlacedYet(m, init, last.folder);
    }
  }
}
