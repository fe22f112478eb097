/** When a bigger cache never turns a hit into a miss: always, as long as the
    trace holds only reads past the header, and otherwise exactly when no read of
    a header finds its track in the bigger cache only. */
module StackInclusion {
  import opened Bytes
  import opened Wrappers
  import opened LruSpec
  import opened Sequences

  /** One uncontended PCM-region read: a hit promotes; a miss renders the track
      and stores it. */
  function Access(s: Lru, k: Key, wav: Key -> seq<byte>, maxBytes: int): Lru {
    if Lookup(s, k).Some? then Touch(s, k) else Store(s, k, wav(k), maxBytes)
  }

  /** An uncontended read of a track, past its header or inside it. */
  datatype Visit = Pcm(k: Key) | Hdr(k: Key)

  /** A read inside the header promotes on a hit and leaves a miss alone. */
  function Visited(s: Lru, v: Visit, wav: Key -> seq<byte>, maxBytes: int): Lru {
    match v
    case Pcm(k) => Access(s, k, wav, maxBytes)
    case Hdr(k) => Touch(s, k)
  }

  function RunReads(trace: seq<Visit>, wav: Key -> seq<byte>, maxBytes: int): Lru {
    if trace == [] then []
    else Visited(RunReads(trace[..|trace| - 1], wav, maxBytes), trace[|trace| - 1], wav, maxBytes)
  }

  predicate PcmOnly(trace: seq<Visit>) {
    forall i :: 0 <= i < |trace| ==> trace[i].Pcm?
  }

  /** Every track ever read, most recent first, with no capacity at all. */
  function Recency(trace: seq<Visit>, wav: Key -> seq<byte>): Lru {
    if trace == [] then []
    else
      var k := trace[|trace| - 1].k;
      [Entry(k, wav(k))] + Without(Recency(trace[..|trace| - 1], wav), k)
  }

  ghost predicate Canonical(s: Lru, wav: Key -> seq<byte>) {
    forall i :: 0 <= i < |s| ==> s[i].data == wav(s[i].k)
  }

  lemma {:induction false} WithoutCanonical(s: Lru, k: Key, wav: Key -> seq<byte>)
    requires Canonical(s, wav)
    ensures Canonical(Without(s, k), wav)
  {
    if s != [] {
      WithoutCanonical(s[1..], k, wav);
    }
  }

  lemma {:induction false} RecencyWellFormed(trace: seq<Visit>, wav: Key -> seq<byte>)
    ensures Distinct(Recency(trace, wav)) && Canonical(Recency(trace, wav), wav)
  {
    if trace != [] {
      var s, k := Recency(trace[..|trace| - 1], wav), trace[|trace| - 1].k;
      RecencyWellFormed(trace[..|trace| - 1], wav);
      WithoutDistinct(s, k);
      WithoutCanonical(s, k, wav);
      ConsDistinct(Entry(k, wav(k)), Without(s, k));
    }
  }

  /** Cutting at a prefix that is already too long to extend changes nothing. */
  lemma TrimOfPrefix(s: Lru, n: nat, maxBytes: int)
    requires 1 <= n <= |s|
    requires n == |s| || Total(s[..n + 1]) > maxBytes
    ensures Trim(s, maxBytes) == Trim(s[..n], maxBytes)
  {
    var p := s[..n];
    TrimIsLongestFittingPrefix(p, maxBytes);
    var m := |Trim(p, maxBytes)|;
    assert p[..m] == s[..m];
    if m < n {
      assert p[..m + 1] == s[..m + 1];
    }
    TrimUnique(s, maxBytes, m);
  }

  lemma OnlyInFront(p: Lru, rest: Lru, k: Key)
    requires Distinct(p + rest) && Has(p, k)
    ensures Distinct(p) && !Has(rest, k)
  {
    var s := p + rest;
    var i :| 0 <= i < |p| && p[i].k == k;
    assert s[i] == p[i];
    assert forall j :: 0 <= j < |p| ==> s[j] == p[j];
    assert forall j :: 0 <= j < |rest| ==> s[|p| + j] == rest[j];
  }

  lemma TouchInFront(p: Lru, rest: Lru, k: Key, d: seq<byte>)
    requires Distinct(p + rest) && Lookup(p, k) == Some(d)
    ensures [Entry(k, d)] + Without(p + rest, k) == Touch(p, k) + rest
    ensures |Touch(p, k)| == |p| > 0 && Total(Touch(p, k)) == Total(p)
  {
    LookupHas(p, k);
    OnlyInFront(p, rest, k);
    TouchSize(p, k);
    WithoutAppend(p, rest, k);
    WithoutAbsent(rest, k);
    Regroup([Entry(k, d)], Without(p, k), rest);
  }

  lemma TouchSize(p: Lru, k: Key)
    requires Distinct(p) && Has(p, k)
    ensures |Touch(p, k)| == |p| > 0 && Total(Touch(p, k)) == Total(p)
  {
    var i :| 0 <= i < |p| && p[i].k == k;
    MovedIsTouch(p, i);
  }

  /** Total just past the cut. */
  lemma PastTheCut(p: Lru, rest: Lru, maxBytes: int)
    requires p == Trim(p + rest, maxBytes) && rest != []
    ensures p != [] && Total(p) + |rest[0].data| > maxBytes
  {
    TrimIsLongestFittingPrefix(p + rest, maxBytes);
    assert (p + rest)[..|p| + 1] == p + [rest[0]];
    TotalAppend(p, [rest[0]]);
    TotalOne(rest[0]);
  }

  lemma CutFits(p: Lru, rest: Lru, maxBytes: int)
    requires p == Trim(p + rest, maxBytes)
    ensures |p| <= 1 || Total(p) <= maxBytes
  {
    if p + rest != [] {
      TrimIsLongestFittingPrefix(p + rest, maxBytes);
    }
  }

  /** Another front of the same length and size is cut at the same place. */
  lemma SameCut(p: Lru, t: Lru, rest: Lru, maxBytes: int)
    requires p == Trim(p + rest, maxBytes)
    requires |t| == |p| > 0 && Total(t) == Total(p)
    ensures Trim(t + rest, maxBytes) == t
  {
    CutFits(p, rest, maxBytes);
    var s := t + rest;
    assert s[..|t|] == t;
    if rest != [] {
      PastTheCut(p, rest, maxBytes);
      assert s[..|t| + 1] == t + [rest[0]];
      TotalAppend(t, [rest[0]]);
      TotalOne(rest[0]);
    }
    TrimUnique(s, maxBytes, |t|);
  }

  /** A hit: the same entries in front, so the same cut. */
  lemma HitStep(p: Lru, rest: Lru, k: Key, d: seq<byte>, maxBytes: int)
    requires Distinct(p + rest) && Lookup(p, k) == Some(d)
    requires p == Trim(p + rest, maxBytes)
    ensures Trim([Entry(k, d)] + Without(p + rest, k), maxBytes) == Touch(p, k)
  {
    TouchInFront(p, rest, k, d);
    SameCut(p, Touch(p, k), rest, maxBytes);
  }

  /** A miss: whatever follows the cached prefix is still too much. */
  lemma MissStep(p: Lru, rest: Lru, e: Entry, maxBytes: int)
    requires !Has(p, e.k) && p == Trim(p + rest, maxBytes)
    requires forall j :: 0 <= j < |rest| && rest[j].k == e.k ==> rest[j].data == e.data
    ensures Trim([e] + Without(p + rest, e.k), maxBytes) == Store(p, e.k, e.data, maxBytes)
  {
    WithoutAbsent(p, e.k);
    WithoutAppend(p, rest, e.k);
    var later := Without(rest, e.k);
    var front := [e] + p;
    assert [e] + (p + later) == front + later;
    if later != [] {
      PastTheCut(p, rest, maxBytes);
      TotalCons(e, p);
      assert rest[0].k != e.k ==> later[0] == rest[0];
    }
    CutOfFront(front, later, maxBytes);
  }

  lemma CutOfFront(front: Lru, later: Lru, maxBytes: int)
    requires front != []
    requires later != [] ==> Total(front) + |later[0].data| > maxBytes
    ensures Trim(front + later, maxBytes) == Trim(front, maxBytes)
  {
    var s := front + later;
    assert s[..|front|] == front;
    if later != [] {
      assert s[..|front| + 1] == front + [later[0]];
      TotalAppend(front, [later[0]]);
      TotalOne(later[0]);
    }
    TrimOfPrefix(s, |front|, maxBytes);
  }

  lemma TotalOne(e: Entry)
    ensures Total([e]) == |e.data|
  {
    TotalCons(e, []);
    assert [e] + [] == [e];
  }

  /** The cache is always the recency stack cut at its capacity: the state does
      not depend on capacity in any other way. */
  lemma {:induction false} CacheIsCutStack(trace: seq<Visit>, wav: Key -> seq<byte>, maxBytes: int)
    requires PcmOnly(trace)
    ensures RunReads(trace, wav, maxBytes) == Trim(Recency(trace, wav), maxBytes)
  {
    if trace != [] {
      var before, k := trace[..|trace| - 1], trace[|trace| - 1].k;
      var s, p := Recency(before, wav), RunReads(before, wav, maxBytes);
      CacheIsCutStack(before, wav, maxBytes);
      RecencyWellFormed(before, wav);
      var rest := CutStack(s, maxBytes);
      LookupHas(p, k);
      if Has(p, k) {
        CanonicalPrefix(p, rest, k, wav);
        HitStep(p, rest, k, wav(k), maxBytes);
      } else {
        assert forall j :: 0 <= j < |rest| ==> rest[j] == s[|p| + j];
        MissStep(p, rest, Entry(k, wav(k)), maxBytes);
      }
    }
  }

  lemma CanonicalPrefix(p: Lru, rest: Lru, k: Key, wav: Key -> seq<byte>)
    requires Distinct(p + rest) && Canonical(p + rest, wav) && Has(p, k)
    ensures Lookup(p, k) == Some(wav(k))
  {
    OnlyInFront(p, rest, k);
    var i :| 0 <= i < |p| && p[i].k == k;
    LookupAt(p, i);
    assert (p + rest)[i] == p[i];
  }

  /** What Trim cuts off. */
  lemma CutStack(s: Lru, maxBytes: int) returns (rest: Lru)
    ensures s == Trim(s, maxBytes) + rest
  {
    if s == [] {
      rest := [];
    } else {
      TrimIsLongestFittingPrefix(s, maxBytes);
      rest := s[|Trim(s, maxBytes)|..];
    }
  }

  lemma TrimMonotone(s: Lru, small: int, large: int)
    requires small <= large
    ensures Trim(s, small) <= Trim(s, large)
  {
    if s != [] {
      TrimIsLongestFittingPrefix(s, small);
      TrimIsLongestFittingPrefix(s, large);
      var a, b := |Trim(s, small)|, |Trim(s, large)|;
      assert Trim(s, small) == s[..a] && Trim(s, large) == s[..b];
    }
  }

  /** Stack inclusion: on the same reads, the smaller cache's list is a prefix of
      the larger's, entries bigger than the whole cache included. */
  lemma Inclusion(trace: seq<Visit>, wav: Key -> seq<byte>, small: int, large: int)
    requires small <= large && PcmOnly(trace)
    ensures RunReads(trace, wav, small) <= RunReads(trace, wav, large)
    ensures forall k :: Has(RunReads(trace, wav, small), k) ==> Has(RunReads(trace, wav, large), k)
  {
    CacheIsCutStack(trace, wav, small);
    CacheIsCutStack(trace, wav, large);
    TrimMonotone(Recency(trace, wav), small, large);
    var a, b := RunReads(trace, wav, small), RunReads(trace, wav, large);
    forall k | Has(a, k) ensures Has(b, k) {
      var i :| 0 <= i < |a| && a[i].k == k;
      assert b[i].k == k;
    }
  }

  // ---- Header-region reads -------------------------------------------------

  /** One read inside the header keeps inclusion exactly unless it hits only the
      larger of two caches while the smaller one holds something. */
  lemma HeaderReadKeepsInclusion(a: Lru, b: Lru, k: Key)
    requires Distinct(b) && a <= b
    ensures Touch(a, k) <= Touch(b, k) <==> Has(a, k) || !Has(b, k) || a == []
  {
    LookupHas(a, k);
    LookupHas(b, k);
    var rest := b[|a|..];
    assert b == a + rest;
    if Has(a, k) {
      var d := Lookup(a, k).value;
      TouchInFront(a, rest, k, d);
      OnlyInFront(a, rest, k);
      LookupAppend(a, rest, k);
    } else if Has(b, k) && a != [] {
      assert Touch(b, k)[0].k == k && a[0].k != k;
    }
  }

  lemma {:induction false} LookupAppend(a: Lru, b: Lru, k: Key)
    ensures Lookup(a + b, k) == if Lookup(a, k).Some? then Lookup(a, k) else Lookup(b, k)
  {
    if a == [] {
      assert a + b == b;
    } else {
      assert (a + b)[1..] == a[1..] + b;
      LookupAppend(a[1..], b, k);
    }
  }

  /** A longer list, cut at a larger capacity, keeps at least as much. */
  lemma TrimPrefixes(a: Lru, b: Lru, small: int, large: int)
    requires a <= b && a != [] && small <= large
    ensures Trim(a, small) <= Trim(b, large)
  {
    TrimIsLongestFittingPrefix(a, small);
    TrimIsLongestFittingPrefix(b, large);
    var m, n := |Trim(a, small)|, |Trim(b, large)|;
    assert a[..m] == b[..m] && Trim(a, small) == a[..m];
  }

  lemma PrefixCons(e: Entry, a: Lru, rest: Lru)
    ensures [e] + a <= [e] + (a + rest)
  {
    Regroup([e], a, rest);
  }

  /** A read past the header always keeps inclusion. */
  lemma PcmReadKeepsInclusion(a: Lru, b: Lru, k: Key, wav: Key -> seq<byte>, small: int, large: int)
    requires a <= b && Distinct(b) && Canonical(b, wav) && small <= large
    ensures Access(a, k, wav, small) <= Access(b, k, wav, large)
  {
    LookupHas(a, k);
    LookupHas(b, k);
    var rest, e := b[|a|..], Entry(k, wav(k));
    assert b == a + rest;
    if Has(a, k) {
      HeaderReadKeepsInclusion(a, b, k);
      LookupAppend(a, rest, k);
    } else {
      WithoutAbsent(a, k);
      WithoutAppend(a, rest, k);
      PrefixCons(e, a, Without(rest, k));
      TrimPrefixes([e] + a, [e] + Without(b, k), small, large);
      if Has(b, k) {
        CanonicalPrefix(b, [], k, wav);
        TrimIsLongestFittingPrefix([e] + a, small);
      }
    }
  }

  /** Every list a trace leads to holds distinct tracks with their own data. */
  lemma {:induction false} RunWellFormed(trace: seq<Visit>, wav: Key -> seq<byte>, maxBytes: int)
    ensures var s := RunReads(trace, wav, maxBytes);
            Distinct(s) && Canonical(s, wav) && (s == [] <==> PcmFree(trace))
  {
    if trace != [] {
      var before, v := trace[..|trace| - 1], trace[|trace| - 1];
      RunWellFormed(before, wav, maxBytes);
      VisitWellFormed(RunReads(before, wav, maxBytes), v, wav, maxBytes);
      assert trace == before + [v];
    }
  }

  predicate PcmFree(trace: seq<Visit>) {
    forall i :: 0 <= i < |trace| ==> trace[i].Hdr?
  }

  lemma VisitWellFormed(s: Lru, v: Visit, wav: Key -> seq<byte>, maxBytes: int)
    requires Distinct(s) && Canonical(s, wav)
    ensures var t := Visited(s, v, wav, maxBytes);
            Distinct(t) && Canonical(t, wav) && (t == [] <==> s == [] && v.Hdr?)
  {
    LookupHas(s, v.k);
    if Has(s, v.k) {
      TouchKeys(s, v.k, v.k);
      CanonicalPrefix(s, [], v.k, wav);
      WithoutCanonical(s, v.k, wav);
    } else if v.Pcm? {
      StoreKeys(s, v.k, wav(v.k), maxBytes);
      WithoutCanonical(s, v.k, wav);
    }
  }

  /** A header read that does not hit the larger cache alone. */
  predicate Harmless(v: Visit, a: Lru, b: Lru) {
    v.Hdr? && Has(b, v.k) ==> Has(a, v.k)
  }

  lemma VisitKeepsInclusion(a: Lru, b: Lru, v: Visit, wav: Key -> seq<byte>, small: int, large: int)
    requires a <= b && Distinct(b) && Canonical(b, wav) && small <= large
    requires a == [] ==> b == []
    ensures Visited(a, v, wav, small) <= Visited(b, v, wav, large) <==> Harmless(v, a, b)
  {
    match v
    case Pcm(k) => PcmReadKeepsInclusion(a, b, k, wav, small, large);
    case Hdr(k) => HeaderReadKeepsInclusion(a, b, k);
  }

  ghost predicate Included(trace: seq<Visit>, wav: Key -> seq<byte>, small: int, large: int) {
    RunReads(trace, wav, small) <= RunReads(trace, wav, large)
  }

  ghost predicate HarmlessAt(trace: seq<Visit>, n: nat, wav: Key -> seq<byte>, small: int, large: int)
    requires n < |trace|
  {
    Harmless(trace[n], RunReads(trace[..n], wav, small), RunReads(trace[..n], wav, large))
  }

  lemma OneVisitOn(trace: seq<Visit>, n: nat, wav: Key -> seq<byte>, small: int, large: int)
    requires n < |trace| && small <= large && Included(trace[..n], wav, small, large)
    ensures Included(trace[..n + 1], wav, small, large) <==> HarmlessAt(trace, n, wav, small, large)
  {
    assert trace[..n + 1][..n] == trace[..n];
    RunWellFormed(trace[..n], wav, small);
    RunWellFormed(trace[..n], wav, large);
    var a, b := RunReads(trace[..n], wav, small), RunReads(trace[..n], wav, large);
    VisitKeepsInclusion(a, b, trace[n], wav, small, large);
  }

  lemma {:induction false} HarmlessUpTo(trace: seq<Visit>, n: nat, wav: Key -> seq<byte>, small: int, large: int)
    requires n <= |trace| && small <= large
    requires forall i :: 0 <= i < n ==> HarmlessAt(trace, i, wav, small, large)
    ensures Included(trace[..n], wav, small, large)
  {
    if n > 0 {
      HarmlessUpTo(trace, n - 1, wav, small, large);
      OneVisitOn(trace, n - 1, wav, small, large);
    }
  }

  /** For every trace of reads inside and past headers: the smaller cache's list is
      a prefix of the larger's at every moment exactly if no header read finds its
      track in the larger cache only. */
  lemma InclusionExactly(trace: seq<Visit>, wav: Key -> seq<byte>, small: int, large: int)
    requires small <= large
    ensures (forall n :: 0 <= n <= |trace| ==> Included(trace[..n], wav, small, large))
            <==> (forall n :: 0 <= n < |trace| ==> HarmlessAt(trace, n, wav, small, large))
  {
    if forall n :: 0 <= n < |trace| ==> HarmlessAt(trace, n, wav, small, large) {
      forall n | 0 <= n <= |trace| ensures Included(trace[..n], wav, small, large) {
        HarmlessUpTo(trace, n, wav, small, large);
      }
    }
    if forall n :: 0 <= n <= |trace| ==> Included(trace[..n], wav, small, large) {
      forall n | 0 <= n < |trace| ensures HarmlessAt(trace, n, wav, small, large) {
        OneVisitOn(trace, n, wav, small, large);
      }
    }
  }

  /** So a trace with a header read can lose a hit by growing the cache: here the
      second track is still cached at the end, unless the cache is large enough
      for the first two tracks but not for all three. */
  lemma HeaderReadsBreakInclusion(wav: Key -> seq<byte>, x: Key, y: Key, z: Key, small: int, large: int)
    requires x != y && y != z && x != z
    requires |wav(y)| + |wav(z)| <= small < |wav(x)| + |wav(y)| <= large < |wav(x)| + |wav(y)| + |wav(z)|
    ensures var trace := [Pcm(x), Pcm(y), Hdr(x), Pcm(z)];
            Has(RunReads(trace, wav, small), y) && !Has(RunReads(trace, wav, large), y)
  {
    var ex, ey, ez := Entry(x, wav(x)), Entry(y, wav(y)), Entry(z, wav(z));
    ThreeReads(wav, x, y, z, small);
    ThreeReads(wav, x, y, z, large);
    TotalTwo(ey, ex);
    TotalTwo(ez, ey);
    TrimTwo(ey, ex, small);
    TrimTwo(ey, ex, large);
    LookupHas([ey], x);
    AccessMiss([ey], z, wav, small);
    TrimTwo(ez, ey, small);
    assert [ez] + [ey] == [ez, ey] && [ez, ey][1].k == y;
    SecondToFront(ey, ex);
    AccessMiss([ex, ey], z, wav, large);
    assert [ez] + [ex, ey] == [ez, ex, ey];
    ThirdDropped(ez, ex, ey, large);
  }

  lemma AccessMiss(s: Lru, k: Key, wav: Key -> seq<byte>, maxBytes: int)
    requires !Has(s, k)
    ensures Access(s, k, wav, maxBytes) == Trim([Entry(k, wav(k))] + s, maxBytes)
  {
    LookupHas(s, k);
    WithoutAbsent(s, k);
  }

  /** The trace, up to what the header read finds. */
  lemma ThreeReads(wav: Key -> seq<byte>, x: Key, y: Key, z: Key, maxBytes: int)
    requires x != y
    ensures RunReads([Pcm(x), Pcm(y), Hdr(x), Pcm(z)], wav, maxBytes)
            == Access(Touch(Trim([Entry(y, wav(y)), Entry(x, wav(x))], maxBytes), x), z, wav, maxBytes)
  {
    var ex, ey := Entry(x, wav(x)), Entry(y, wav(y));
    assert [] + [Pcm(x)] == [Pcm(x)] && [Pcm(x)] + [Pcm(y)] == [Pcm(x), Pcm(y)];
    assert [Pcm(x), Pcm(y)] + [Hdr(x)] == [Pcm(x), Pcm(y), Hdr(x)];
    assert [Pcm(x), Pcm(y), Hdr(x)] + [Pcm(z)] == [Pcm(x), Pcm(y), Hdr(x), Pcm(z)];
    OneMore([], Pcm(x), wav, maxBytes);
    OneMore([Pcm(x)], Pcm(y), wav, maxBytes);
    OneMore([Pcm(x), Pcm(y)], Hdr(x), wav, maxBytes);
    OneMore([Pcm(x), Pcm(y), Hdr(x)], Pcm(z), wav, maxBytes);
    AccessMiss([], x, wav, maxBytes);
    assert [ex] + [] == [ex];
    AccessMiss([ex], y, wav, maxBytes);
    assert [ey] + [ex] == [ey, ex];
  }

  lemma OneMore(trace: seq<Visit>, v: Visit, wav: Key -> seq<byte>, maxBytes: int)
    ensures RunReads(trace + [v], wav, maxBytes) == Visited(RunReads(trace, wav, maxBytes), v, wav, maxBytes)
  {
    assert (trace + [v])[..|trace|] == trace;
  }

  lemma SecondToFront(a: Entry, b: Entry)
    requires a.k != b.k
    ensures Touch([a, b], b.k) == [b, a]
  {
    TouchAt([a, b], 1);
  }

  lemma TotalTwo(a: Entry, b: Entry)
    ensures Total([a, b]) == |a.data| + |b.data|
  {
    TotalOne(b);
    TotalCons(a, [b]);
    assert [a] + [b] == [a, b];
  }

  lemma TrimTwo(a: Entry, b: Entry, maxBytes: int)
    ensures Trim([a, b], maxBytes) == if |a.data| + |b.data| <= maxBytes then [a, b] else [a]
  {
    TotalTwo(a, b);
    assert [a, b][..1] == [a];
  }

  lemma ThirdDropped(a: Entry, b: Entry, c: Entry, maxBytes: int)
    requires a.k != c.k && b.k != c.k && |a.data| + |b.data| + |c.data| > maxBytes
    ensures !Has(Trim([a, b, c], maxBytes), c.k)
  {
    TotalTwo(b, c);
    TotalCons(a, [b, c]);
    assert [a] + [b, c] == [a, b, c];
    assert [a, b, c][..2] == [a, b];
    TrimTwo(a, b, maxBytes);
  }
}
